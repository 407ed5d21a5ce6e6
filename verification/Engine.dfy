/** One agent turn (engine/orchestration/engine.py): the fold of an event stream into a result,
    and what the trace span records of it. */
module Engine {
  import opened Sequences
  import opened Wrappers
  import opened Runtime
  import opened StreamContract
  import opened Tracing

  /** How `run_turn` leaves its caller. */
  datatype Outcome =
    | Returned(result: RunResult)
    | AgentFailed(error: AgentError)  // AgentRunFailed
    | MissingTerminal                 // RuntimeError: the backend broke its contract
    | PayloadMissing                  // AssertionError
    | CallbackRaised
    | BackendRaised
    | UnknownBackend                  // not in the registry

  datatype Capabilities = Capabilities(resume: bool, streaming: bool)

  /** What a backend is asked to run. */
  datatype Request = Request(
    backend: string, prompt: string, cwd: string, env: map<string, string>, thread: Json, dims: Dims)

  /** A turn: how it ended, the events that passed the capability gate and were consumed (those
      an `on_event` callback is given), and what the span holds when it closes. */
  datatype Turn = Turn(
    outcome: Outcome,
    seen: seq<AgentEvent>,
    tools: seq<ToolEvent>,
    output: Json,
    error: Option<SpanError>)

  /** The events a backend without streaming lets through: all but deltas. */
  function Visible(events: seq<AgentEvent>, streaming: bool): seq<AgentEvent> {
    if events == [] then []
    else
      var e := events[|events| - 1];
      Visible(events[..|events| - 1], streaming) + if e.kind == MessageDelta && !streaming then [] else [e]
  }

  /** The loop stops at visible event `i`: the callback raises there, it is an error, or it is a
      completion without its result. */
  predicate StopsAt(vis: seq<AgentEvent>, i: nat, raisesAt: Option<nat>)
    requires i < |vis|
  {
    raisesAt == Some(i) || vis[i].kind == Error || (vis[i].kind == TurnCompleted && vis[i].result.None?)
  }

  function FirstStopAt(vis: seq<AgentEvent>, raisesAt: Option<nat>, from: nat): (k: nat)
    requires from <= |vis|
    ensures from <= k <= |vis|
    ensures k < |vis| ==> StopsAt(vis, k, raisesAt)
    ensures forall i :: from <= i < k ==> !StopsAt(vis, i, raisesAt)
    decreases |vis| - from
  {
    if from == |vis| || StopsAt(vis, from, raisesAt) then from else FirstStopAt(vis, raisesAt, from + 1)
  }

  /** The tools recorded for a run of events. */
  function ToolsOf(events: seq<AgentEvent>): seq<ToolEvent> {
    if events == [] then []
    else
      var e := events[|events| - 1];
      ToolsOf(events[..|events| - 1]) + if e.kind == ToolCallCompleted && e.tool.Some? then [e.tool.value] else []
  }

  /** The result of the last completion in a run of events. */
  function LastResult(events: seq<AgentEvent>): Option<RunResult> {
    if events == [] then None
    else if events[|events| - 1].kind == TurnCompleted then events[|events| - 1].result
    else LastResult(events[..|events| - 1])
  }

  /** The turn as a declarative fold of the stream. */
  function TurnOf(stream: Stream, streaming: bool, raisesAt: Option<nat>): Turn {
    var vis := Visible(stream.events, streaming);
    var k := FirstStopAt(vis, raisesAt, 0);
    if k < |vis| then StoppedTurn(vis, k, raisesAt)
    else if stream.escapes then Turn(BackendRaised, vis, ToolsOf(vis), Null, Some(Uncaught))
    else EndedTurn(vis)
  }

  function StoppedTurn(vis: seq<AgentEvent>, k: nat, raisesAt: Option<nat>): Turn
    requires k < |vis| && StopsAt(vis, k, raisesAt)
  {
    StoppedOn(vis[..k], vis[k], vis[..k + 1], raisesAt == Some(k))
  }

  /** The turn that event `e` stops after the events in `front`. */
  function StoppedOn(front: seq<AgentEvent>, e: AgentEvent, seen: seq<AgentEvent>, raised: bool): Turn {
    if raised then Turn(CallbackRaised, seen, ToolsOf(front), Null, Some(Uncaught))
    else if e.kind == Error && e.error.Some? then
      Turn(AgentFailed(e.error.value), seen, ToolsOf(front), Null, Some(ErrorEvent(e.error.value)))
    else Turn(PayloadMissing, seen, ToolsOf(front), Null, Some(Uncaught))
  }

  function EndedTurn(vis: seq<AgentEvent>): Turn {
    match LastResult(vis)
    case None => Turn(MissingTerminal, vis, ToolsOf(vis), Null, Some(NoTerminalEvent))
    case Some(r) => Turn(Returned(r), vis, ToolsOf(vis), r.finalText, None)
  }

  function TraceOf(dims: Dims, input: string, metadata: map<string, string>, turn: Turn): Trace {
    Trace(dims, input, metadata, turn.tools, turn.output, turn.error, true)
  }

  /** Where the loop stands after `i` events, none of which stopped it. */
  ghost predicate AtEvent(events: seq<AgentEvent>, i: nat, streaming: bool, raisesAt: Option<nat>,
                          seen: seq<AgentEvent>, result: Option<RunResult>) {
    && i <= |events|
    && seen == Visible(events[..i], streaming)
    && (forall j :: 0 <= j < |seen| ==> !StopsAt(seen, j, raisesAt))
    && result == LastResult(seen)
  }

  lemma Gate(events: seq<AgentEvent>, i: nat, streaming: bool)
    requires i < |events|
    ensures Visible(events[..i + 1], streaming) ==
            Visible(events[..i], streaming) +
            if events[i].kind == MessageDelta && !streaming then [] else [events[i]]
  {
    assert events[..i + 1][..i] == events[..i];
  }

  lemma {:induction false} VisiblePrefix(events: seq<AgentEvent>, i: nat, streaming: bool)
    requires i <= |events|
    ensures Visible(events[..i], streaming) <= Visible(events, streaming)
    decreases |events| - i
  {
    if i == |events| {
      assert events[..i] == events;
    } else {
      VisiblePrefix(events, i + 1, streaming);
      Gate(events, i, streaming);
    }
  }

  lemma StopsNow(stream: Stream, i: nat, streaming: bool, raisesAt: Option<nat>,
                 seen: seq<AgentEvent>, result: Option<RunResult>)
    requires AtEvent(stream.events, i, streaming, raisesAt, seen, result)
    requires i < |stream.events| && !(stream.events[i].kind == MessageDelta && !streaming)
    requires StopsAt(seen + [stream.events[i]], |seen|, raisesAt)
    ensures var t, e := TurnOf(stream, streaming, raisesAt), stream.events[i];
      && t.outcome == (if raisesAt == Some(|seen|) then CallbackRaised
                       else if e.kind == Error && e.error.Some? then AgentFailed(e.error.value) else PayloadMissing)
      && t.seen == seen + [e] && t.tools == ToolsOf(seen) && t.output == Null && t.error == Some(ErrorOf(t.outcome))
  {
    var vis, e := Visible(stream.events, streaming), stream.events[i];
    UpToNow(stream.events, i, streaming);
    StopInPrefix(vis, seen, e, raisesAt);
    StoppedHere(vis, seen, e, raisesAt);
  }

  lemma UpToNow(events: seq<AgentEvent>, i: nat, streaming: bool)
    requires i < |events| && !(events[i].kind == MessageDelta && !streaming)
    ensures Visible(events[..i], streaming) + [events[i]] <= Visible(events, streaming)
  {
    Gate(events, i, streaming);
    VisiblePrefix(events, i + 1, streaming);
  }

  lemma StoppedHere(vis: seq<AgentEvent>, seen: seq<AgentEvent>, e: AgentEvent, raisesAt: Option<nat>)
    requires |seen| < |vis| && StopsAt(vis, |seen|, raisesAt)
    requires vis[|seen|] == e && vis[..|seen|] == seen && vis[..|seen| + 1] == seen + [e]
    ensures var t := StoppedTurn(vis, |seen|, raisesAt);
      && t.outcome == (if raisesAt == Some(|seen|) then CallbackRaised
                       else if e.kind == Error && e.error.Some? then AgentFailed(e.error.value) else PayloadMissing)
      && t.seen == seen + [e] && t.tools == ToolsOf(seen) && t.output == Null && t.error == Some(ErrorOf(t.outcome))
  {
  }

  lemma StopInPrefix(vis: seq<AgentEvent>, seen: seq<AgentEvent>, e: AgentEvent, raisesAt: Option<nat>)
    requires seen + [e] <= vis
    requires forall j :: 0 <= j < |seen| ==> !StopsAt(seen, j, raisesAt)
    requires StopsAt(seen + [e], |seen|, raisesAt)
    ensures FirstStopAt(vis, raisesAt, 0) == |seen|
    ensures |seen| < |vis| && vis[|seen|] == e && vis[..|seen|] == seen && vis[..|seen| + 1] == seen + [e]
  {
    assert vis[|seen|] == e && StopsAt(vis, |seen|, raisesAt);
    forall j | 0 <= j < |seen| ensures !StopsAt(vis, j, raisesAt) {
      assert !StopsAt(seen, j, raisesAt) && vis[j] == seen[j];
    }
  }

  lemma Snoc(seen: seq<AgentEvent>, e: AgentEvent)
    ensures LastResult(seen + [e]) == if e.kind == TurnCompleted then e.result else LastResult(seen)
    ensures ToolsOf(seen + [e]) == ToolsOf(seen) + ToolsOf([e])
  {
    assert (seen + [e])[..|seen|] == seen && [e][..0] == [];
  }

  lemma StillNoStop(seen: seq<AgentEvent>, e: AgentEvent, raisesAt: Option<nat>)
    requires forall j :: 0 <= j < |seen| ==> !StopsAt(seen, j, raisesAt)
    requires !StopsAt(seen + [e], |seen|, raisesAt)
    ensures forall j :: 0 <= j < |seen + [e]| ==> !StopsAt(seen + [e], j, raisesAt)
  {
    forall j | 0 <= j <= |seen| ensures !StopsAt(seen + [e], j, raisesAt) {
      if j < |seen| { assert !StopsAt(seen, j, raisesAt); }
    }
  }

  lemma GoesOn(events: seq<AgentEvent>, i: nat, streaming: bool, raisesAt: Option<nat>,
               seen: seq<AgentEvent>, result: Option<RunResult>)
    requires AtEvent(events, i, streaming, raisesAt, seen, result)
    requires i < |events| && !(events[i].kind == MessageDelta && !streaming)
    requires !StopsAt(seen + [events[i]], |seen|, raisesAt)
    ensures AtEvent(events, i + 1, streaming, raisesAt, seen + [events[i]],
                    if events[i].kind == TurnCompleted then events[i].result else result)
    ensures ToolsOf(seen + [events[i]]) == ToolsOf(seen) + ToolsOf([events[i]])
  {
    Gate(events, i, streaming);
    Snoc(seen, events[i]);
    StillNoStop(seen, events[i], raisesAt);
  }

  lemma ReachesEnd(stream: Stream, streaming: bool, raisesAt: Option<nat>,
                   seen: seq<AgentEvent>, result: Option<RunResult>)
    requires AtEvent(stream.events, |stream.events|, streaming, raisesAt, seen, result)
    ensures TurnOf(stream, streaming, raisesAt) ==
            if stream.escapes then Turn(BackendRaised, seen, ToolsOf(seen), Null, Some(Uncaught)) else EndedTurn(seen)
  {
    assert stream.events[..|stream.events|] == stream.events;
  }

  /** The error a span closes with when the loop leaves through `o`. */
  function ErrorOf(o: Outcome): SpanError {
    match o
    case AgentFailed(error) => ErrorEvent(error)
    case MissingTerminal => NoTerminalEvent
    case _ => Uncaught
  }

  /** The loop body for an event that passed the gate, including the span's `__exit__` when it
      leaves with an exception. */
  method Consume(span: MemorySpan, event: AgentEvent, raises: bool) returns (left: Option<Outcome>)
    requires !span.record.finished && span.record.output == Null
    modifies span.record
    ensures left ==
            if raises then Some(CallbackRaised)
            else if event.kind == Error then
              if event.error.Some? then Some(AgentFailed(event.error.value)) else Some(PayloadMissing)
            else if event.kind == TurnCompleted && event.result.None? then Some(PayloadMissing)
            else None
    ensures left.None? ==>
      && span.record.View() == old(span.record.View()).(tools := old(span.record.tools) + ToolsOf([event]))
      && span.record.finishes == old(span.record.finishes)
    ensures left.Some? ==>
      && span.record.View() == old(span.record.View()).(error := Some(ErrorOf(left.value)), finished := true)
      && span.record.finishes == old(span.record.finishes) + 1
  {
    assert ToolsOf([event][..0]) == [];
    if raises {
      span.Exit(Some(Uncaught));
      return Some(CallbackRaised);
    }
    if event.kind == ToolCallCompleted && event.tool.Some? {
      span.RecordTool(event.tool.value);
    }
    if event.kind == Error {
      if event.error.None? {
        span.Exit(Some(Uncaught));
        return Some(PayloadMissing);
      }
      span.Finish(Null, Some(ErrorEvent(event.error.value)));
      span.Exit(Some(Uncaught));
      return Some(AgentFailed(event.error.value));
    }
    if event.kind == TurnCompleted && event.result.None? {
      span.Exit(Some(Uncaught));
      return Some(PayloadMissing);
    }
    left := None;
  }

  /** The record of a span that is still open, with the tools of `seen` on it. */
  ghost predicate Open(record: TraceRecord, start: Trace, seen: seq<AgentEvent>)
    reads record
  {
    && record.View() == start.(tools := ToolsOf(seen))
    && !record.finished && record.output == Null && record.error == None
    && record.finishes == 0
  }

  /** The body of the `with` block, and its `__exit__`. */
  method Drive(span: MemorySpan, stream: Stream, streaming: bool, raisesAt: Option<nat>)
    returns (outcome: Outcome, seen: seq<AgentEvent>)
    requires Open(span.record, span.record.View(), [])
    modifies span.record
    ensures var t := TurnOf(stream, streaming, raisesAt);
      && outcome == t.outcome && seen == t.seen
      && span.record.View() ==
         old(span.record.View()).(tools := t.tools, output := t.output, error := t.error, finished := true)
    ensures span.record.finishes == 1
  {
    ghost var start := span.record.View();
    var result: Option<RunResult> := None;
    seen := [];
    for i := 0 to |stream.events|
      invariant AtEvent(stream.events, i, streaming, raisesAt, seen, result)
      invariant Open(span.record, start, seen)
    {
      var event := stream.events[i];
      if event.kind == MessageDelta && !streaming {
        Gate(stream.events, i, streaming);
        continue;
      }
      var left := Consume(span, event, raisesAt == Some(|seen|));
      if left.Some? {
        StopsNow(stream, i, streaming, raisesAt, seen, result);
        return left.value, seen + [event];
      }
      GoesOn(stream.events, i, streaming, raisesAt, seen, result);
      seen, result := seen + [event], if event.kind == TurnCompleted then event.result else result;
    }
    ReachesEnd(stream, streaming, raisesAt, seen, result);
    if stream.escapes {
      span.Exit(Some(Uncaught));
      outcome := BackendRaised;
    } else if result.None? {
      span.Finish(Null, Some(NoTerminalEvent));
      span.Exit(Some(Uncaught));
      outcome := MissingTerminal;
    } else {
      span.Finish(result.value.finalText, None);
      span.Exit(None);
      outcome := Returned(result.value);
    }
  }

  /** `Engine.run_turn`. `caps` is what the registry says of the wanted backend, None if it is not
      registered; `stream` is what that backend produces; `raisesAt` is the visible event, if any,
      at which `on_event` raises. The request sent is the wanted one, without the resume handle if
      the backend cannot resume. An unknown backend leaves no trace. */
  method RunTurn(tracer: MemoryTracer, wanted: Request, metadata: map<string, string>,
                 caps: Option<Capabilities>, stream: Stream, raisesAt: Option<nat>)
    returns (outcome: Outcome, seen: seq<AgentEvent>, request: Option<Request>)
    modifies tracer
    ensures caps.None? ==>
      outcome == UnknownBackend && seen == [] && request == None && tracer.traces == old(tracer.traces)
    ensures caps.Some? ==>
      && request == Some(wanted.(thread := if caps.value.resume then wanted.thread else Null))
      && outcome == TurnOf(stream, caps.value.streaming, raisesAt).outcome
      && seen == TurnOf(stream, caps.value.streaming, raisesAt).seen
      && |tracer.traces| == |old(tracer.traces)| + 1 && old(tracer.traces) <= tracer.traces
      && var record := tracer.traces[|old(tracer.traces)|];
        && fresh(record)
        && record.View() ==
           TraceOf(wanted.dims, wanted.prompt, metadata, TurnOf(stream, caps.value.streaming, raisesAt))
        && record.finishes == 1
        && record.dims == wanted.dims && record.input == wanted.prompt && record.metadata == metadata
        && record.finished
  {
    if caps.None? {
      return UnknownBackend, [], None;
    }
    var thread := if caps.value.resume then wanted.thread else Null;
    request := Some(wanted.(thread := thread));
    var span := tracer.StartTrace(wanted.dims, wanted.prompt, metadata);
    outcome, seen := Drive(span, stream, caps.value.streaming, raisesAt);
  }

  // ----- What a turn guarantees -----

  /** What passes the streaming gate. */
  predicate Passes(e: AgentEvent, streaming: bool) {
    streaming || e.kind != MessageDelta
  }

  lemma {:induction false} VisiblePicks(events: seq<AgentEvent>, streaming: bool) returns (at: seq<nat>)
    ensures Picks(at, events, Visible(events, streaming), e => Passes(e, streaming))
  {
    at := [];
    if events != [] {
      var n := |events| - 1;
      var front := VisiblePicks(events[..n], streaming);
      PicksSnoc(front, events[..n], Visible(events[..n], streaming), e => Passes(e, streaming), events[n]);
      assert events == events[..n] + [events[n]];
      at := if Passes(events[n], streaming) then front + [n] else front;
    }
  }

  /** What a turn consumed: a prefix of the ungated events, cut only at the event that stops the
      loop, and nothing stops it before. */
  ghost predicate SeenOk(t: Turn, vis: seq<AgentEvent>, raisesAt: Option<nat>) {
    && t.seen <= vis
    && (forall i :: 0 <= i < |t.seen| - 1 ==> t.seen[i].kind != Error && raisesAt != Some(i))
    && (|t.seen| < |vis| ==> |t.seen| > 0 && StopsAt(vis, |t.seen| - 1, raisesAt))
  }

  ghost predicate NoCompletion(events: seq<AgentEvent>, from: nat) {
    forall i :: from <= i < |events| ==> events[i].kind != TurnCompleted
  }

  /** `r` is the result of the last completion. */
  ghost predicate LastCompletionIs(events: seq<AgentEvent>, r: RunResult) {
    exists i :: 0 <= i < |events| && events[i].kind == TurnCompleted && events[i].result == Some(r) &&
                NoCompletion(events, i + 1)
  }

  ghost predicate Uneventful(vis: seq<AgentEvent>, raisesAt: Option<nat>) {
    forall i :: 0 <= i < |vis| ==> vis[i].kind != Error && raisesAt != Some(i)
  }

  /** How a turn ends, by what it consumed. */
  ghost predicate OutcomeOk(t: Turn, vis: seq<AgentEvent>, raisesAt: Option<nat>, escapes: bool) {
    var n := |t.seen| - 1;
    match t.outcome
    case Returned(r) => t.seen == vis && !escapes && Uneventful(vis, raisesAt) && LastCompletionIs(vis, r)
    case MissingTerminal => t.seen == vis && !escapes && Uneventful(vis, raisesAt) && NoCompletion(vis, 0)
    case BackendRaised => t.seen == vis && escapes && Uneventful(vis, raisesAt)
    case CallbackRaised => n >= 0 && raisesAt == Some(n)
    case AgentFailed(e) => n >= 0 && raisesAt != Some(n) && t.seen[n].kind == Error && t.seen[n].error == Some(e)
    case PayloadMissing =>
      && n >= 0 && raisesAt != Some(n)
      && (|| (t.seen[n].kind == Error && t.seen[n].error.None?)
          || (t.seen[n].kind == TurnCompleted && t.seen[n].result.None?))
    case UnknownBackend => false
  }

  /** What the span closes with: the final text and no error if the turn returns, else no output
      and the error. */
  ghost predicate SpanOk(t: Turn) {
    match t.outcome
    case Returned(r) => t.output == r.finalText && t.error == None
    case AgentFailed(e) => t.output == Null && t.error == Some(ErrorEvent(e))
    case MissingTerminal => t.output == Null && t.error == Some(NoTerminalEvent)
    case _ => t.output == Null && t.error == Some(Uncaught)
  }

  predicate CompletesTool(e: AgentEvent) {
    e.kind == ToolCallCompleted && e.tool.Some?
  }

  /** `tools` are those of the tool completions among the events: `at` lists where these stand. */
  ghost predicate ToolsAt(at: seq<nat>, events: seq<AgentEvent>, tools: seq<ToolEvent>) {
    && |at| == |tools|
    && (forall i :: 0 <= i < |at| ==> at[i] < |events| && CompletesTool(events[at[i]]) &&
                                      events[at[i]].tool == Some(tools[i]))
    && (forall i, j :: 0 <= i < j < |at| ==> at[i] < at[j])
    && (forall j :: 0 <= j < |events| && CompletesTool(events[j]) ==> j in at)
  }

  lemma ToolsSnoc(front: seq<AgentEvent>, e: AgentEvent)
    ensures ToolsOf(front + [e]) == if CompletesTool(e) then ToolsOf(front) + [e.tool.value] else ToolsOf(front)
  {
    assert (front + [e])[..|front|] == front;
  }

  lemma {:induction false} ToolsPick(events: seq<AgentEvent>) returns (at: seq<nat>)
    ensures ToolsAt(at, events, ToolsOf(events))
  {
    if events == [] {
      at := [];
    } else {
      var front, e := events[..|events| - 1], events[|events| - 1];
      at := ToolsPick(front);
      ToolsMore(at, front, ToolsOf(front), e);
      ToolsSnoc(front, e);
      assert events == front + [e];
      at := if CompletesTool(e) then at + [|front|] else at;
    }
  }

  lemma ToolsMore(at: seq<nat>, events: seq<AgentEvent>, tools: seq<ToolEvent>, e: AgentEvent)
    requires ToolsAt(at, events, tools)
    ensures if CompletesTool(e) then ToolsAt(at + [|events|], events + [e], tools + [e.tool.value])
            else ToolsAt(at, events + [e], tools)
  {
  }

  /** The tools recorded are those of the tool completions consumed, but not of one whose callback
      raises. */
  ghost predicate ToolsOk(t: Turn, at: seq<nat>) {
    if t.outcome.CallbackRaised? then t.seen != [] && ToolsAt(at, t.seen[..|t.seen| - 1], t.tools)
    else ToolsAt(at, t.seen, t.tools)
  }

  /** On any stream whatever, with any callback: the ungated events are the stream's own, in order,
      all but the gated deltas; and what the turn consumes, how it ends, what its span closes with
      and which tools it records are as said above. */
  lemma TurnFacts(stream: Stream, streaming: bool, raisesAt: Option<nat>) returns (at: seq<nat>, tools: seq<nat>)
    ensures var vis, t := Visible(stream.events, streaming), TurnOf(stream, streaming, raisesAt);
      && Picks(at, stream.events, vis, e => Passes(e, streaming))
      && SeenOk(t, vis, raisesAt) && OutcomeOk(t, vis, raisesAt, stream.escapes) && SpanOk(t) && ToolsOk(t, tools)
  {
    at := VisiblePicks(stream.events, streaming);
    TurnEnds(stream, streaming, raisesAt);
    tools := TurnTools(stream, streaming, raisesAt);
  }

  lemma TurnEnds(stream: Stream, streaming: bool, raisesAt: Option<nat>)
    ensures var vis, t := Visible(stream.events, streaming), TurnOf(stream, streaming, raisesAt);
      SeenOk(t, vis, raisesAt) && OutcomeOk(t, vis, raisesAt, stream.escapes) && SpanOk(t)
  {
    var vis := Visible(stream.events, streaming);
    var k := FirstStopAt(vis, raisesAt, 0);
    NothingBefore(vis, raisesAt, k);
    if k < |vis| {
      StoppedFacts(vis, k, raisesAt, stream.escapes);
    } else {
      EndedFacts(vis, raisesAt);
    }
  }

  lemma TurnTools(stream: Stream, streaming: bool, raisesAt: Option<nat>) returns (tools: seq<nat>)
    ensures ToolsOk(TurnOf(stream, streaming, raisesAt), tools)
  {
    var vis := Visible(stream.events, streaming);
    var k := FirstStopAt(vis, raisesAt, 0);
    if k < |vis| {
      tools := StoppedTools(vis, k, raisesAt);
    } else {
      tools := ToolsPick(vis);
    }
  }

  lemma NothingBefore(vis: seq<AgentEvent>, raisesAt: Option<nat>, k: nat)
    requires k <= |vis| && forall i :: 0 <= i < k ==> !StopsAt(vis, i, raisesAt)
    ensures Uneventful(vis[..k], raisesAt)
  {
    forall i | 0 <= i < k ensures vis[i].kind != Error && raisesAt != Some(i) {
      assert !StopsAt(vis, i, raisesAt);
    }
  }

  lemma StoppedFacts(vis: seq<AgentEvent>, k: nat, raisesAt: Option<nat>, escapes: bool)
    requires k < |vis| && StopsAt(vis, k, raisesAt) && Uneventful(vis[..k], raisesAt)
    ensures var t := StoppedTurn(vis, k, raisesAt);
      SeenOk(t, vis, raisesAt) && OutcomeOk(t, vis, raisesAt, escapes) && SpanOk(t)
  {
    forall i | 0 <= i < k ensures vis[i].kind != Error && raisesAt != Some(i) {
      assert vis[..k][i] == vis[i];
    }
  }

  lemma {:induction false} LastResultIs(events: seq<AgentEvent>)
    requires forall i :: 0 <= i < |events| && events[i].kind == TurnCompleted ==> events[i].result.Some?
    ensures LastResult(events).Some? ==> LastCompletionIs(events, LastResult(events).value)
    ensures LastResult(events).None? ==> NoCompletion(events, 0)
  {
    if events != [] {
      var n := |events| - 1;
      LastResultIs(events[..n]);
      if events[n].kind == TurnCompleted {
        assert NoCompletion(events, n + 1);
      } else if LastResult(events).Some? {
        var i :| 0 <= i < n && events[..n][i].kind == TurnCompleted &&
                 events[..n][i].result == LastResult(events) && NoCompletion(events[..n], i + 1);
        assert NoCompletion(events, i + 1) by {
          forall j | i + 1 <= j < |events| ensures events[j].kind != TurnCompleted {
            assert j < n ==> events[..n][j] == events[j];
          }
        }
      } else {
        forall j | 0 <= j < |events| ensures events[j].kind != TurnCompleted {
          assert j < n ==> events[..n][j] == events[j];
        }
      }
    }
  }

  lemma EndedFacts(vis: seq<AgentEvent>, raisesAt: Option<nat>)
    requires forall i :: 0 <= i < |vis| ==> !StopsAt(vis, i, raisesAt)
    ensures var t := EndedTurn(vis); SeenOk(t, vis, raisesAt) && OutcomeOk(t, vis, raisesAt, false) && SpanOk(t)
    ensures Uneventful(vis, raisesAt)
  {
    assert vis[..|vis|] == vis;
    NothingBefore(vis, raisesAt, |vis|);
    forall i | 0 <= i < |vis| && vis[i].kind == TurnCompleted ensures vis[i].result.Some? {
      assert !StopsAt(vis, i, raisesAt);
    }
    LastResultIs(vis);
  }

  lemma StoppedTools(vis: seq<AgentEvent>, k: nat, raisesAt: Option<nat>) returns (tools: seq<nat>)
    requires k < |vis| && StopsAt(vis, k, raisesAt)
    ensures ToolsOk(StoppedTurn(vis, k, raisesAt), tools)
  {
    assert vis[..k + 1] == vis[..k] + [vis[k]] && vis[..k + 1][..k] == vis[..k];
    tools := ToolsPick(vis[..k]);
    ToolsMore(tools, vis[..k], ToolsOf(vis[..k]), vis[k]);
  }

  /** Events without a terminal leave the loop running, without a result. */
  lemma {:induction false} NoStopYet(events: seq<AgentEvent>, i: nat, streaming: bool)
    requires i <= |events| && forall j :: 0 <= j < i ==> !Terminal(events[j])
    ensures AtEvent(events, i, streaming, None, Visible(events[..i], streaming), None)
  {
    if i > 0 {
      NoStopYet(events, i - 1, streaming);
      Gate(events, i - 1, streaming);
      if events[i - 1].kind == MessageDelta && !streaming {
        assert Visible(events[..i], streaming) == Visible(events[..i - 1], streaming);
      } else {
        GoesOn(events, i - 1, streaming, None, Visible(events[..i - 1], streaming), None);
      }
    }
  }

  /** On a stream that keeps the event contract, and with a callback that does not raise, the
      turn returns exactly when the stream completes, with that result; otherwise it fails with
      the stream's error, or passes on the exception the backend let escape. The contract-breach
      RuntimeError and the assertions are unreachable. */
  lemma TurnOnClosedStream(stream: Stream, streaming: bool)
    requires Closed(stream)
    ensures var o := TurnOf(stream, streaming, None).outcome;
      && (stream.escapes ==> o == BackendRaised)
      && (!stream.escapes ==>
            var last := stream.events[|stream.events| - 1];
            if Completes(stream) then last.result.Some? && o == Returned(last.result.value)
            else last.error.Some? && o == AgentFailed(last.error.value))
  {
    var events := stream.events;
    if stream.escapes {
      NoStopYet(events, |events|, streaming);
      ReachesEnd(stream, streaming, None, Visible(events[..|events|], streaming), None);
    } else {
      SuiteAcceptsIffValid(events);
      var n := |events| - 1;
      var seen := Visible(events[..n], streaming);
      NoStopYet(events, n, streaming);
      if events[n].kind == Error {
        StopsNow(stream, n, streaming, None, seen, None);
      } else {
        GoesOn(events, n, streaming, None, seen, None);
        ReachesEnd(stream, streaming, None, seen + [events[n]], events[n].result);
      }
    }
  }

  /** With a backend that does not stream, deltas make no difference. */
  lemma DeltasDoNotMatter(stream: Stream, raisesAt: Option<nat>)
    ensures TurnOf(stream, false, raisesAt) ==
            TurnOf(Stream(Visible(stream.events, false), stream.escapes), false, raisesAt)
  {
    GateTwice(stream.events);
  }

  lemma {:induction false} GateTwice(events: seq<AgentEvent>)
    ensures Visible(Visible(events, false), false) == Visible(events, false)
  {
    if events != [] {
      var front, e := events[..|events| - 1], events[|events| - 1];
      GateTwice(front);
      if e.kind != MessageDelta {
        assert Visible(events, false)[..|Visible(front, false)|] == Visible(front, false);
      } else {
        assert Visible(events, false) == Visible(front, false);
      }
    }
  }

  /** A callback can only add one way out: where it does not raise, the turn is as without it. */
  lemma CallbackOnlyAdds(stream: Stream, streaming: bool, raisesAt: Option<nat>)
    ensures var t := TurnOf(stream, streaming, raisesAt);
      t.outcome == CallbackRaised || t == TurnOf(stream, streaming, None)
  {
    var vis := Visible(stream.events, streaming);
    var k, k' := FirstStopAt(vis, None, 0), FirstStopAt(vis, raisesAt, 0);
    assert k < |vis| ==> StopsAt(vis, k, raisesAt);
    if k' < k {
      assert !StopsAt(vis, k', None);
    }
  }
}

/** Turns on the two CLI backends. Neither supports streaming. */
module CliTurns {
  import opened Wrappers
  import opened Runtime
  import opened Engine
  import CodexBackend
  import CodexTheorems
  import ClaudeBackend
  import ClaudeTheorems

  predicate KeepsContract(o: Outcome) {
    !o.MissingTerminal? && !o.PayloadMissing?
  }

  /** Whatever codex prints and however it ends, the engine never meets a stream without a
      terminal; a turn whose callback does not raise returns exactly when the run completes. */
  lemma CodexTurn(process: Process, resume: Json, raisesAt: Option<nat>)
    ensures KeepsContract(TurnOf(CodexBackend.Codex(process, resume), false, raisesAt).outcome)
    ensures TurnOf(CodexBackend.Codex(process, resume), false, None).outcome.Returned? <==>
            && process.Spawned? && process.ending == Exit(0)
            && forall l :: l in process.lines ==> CodexTheorems.WellFormed(l)
  {
    var s := CodexBackend.Codex(process, resume);
    CodexTheorems.CodexClosed(process, resume);
    CodexTheorems.CodexCompletesIff(process, resume);
    TurnOnClosedStream(s, false);
    CallbackOnlyAdds(s, false, raisesAt);
  }

  lemma ClaudeTurn(process: Process, resume: Json, toInt: ClaudeBackend.ToInt, raisesAt: Option<nat>)
    ensures KeepsContract(TurnOf(ClaudeBackend.Claude(process, resume, toInt), false, raisesAt).outcome)
    ensures TurnOf(ClaudeBackend.Claude(process, resume, toInt), false, None).outcome.Returned? <==>
            process.Spawned? && exists k :: ClaudeTheorems.CompletesAt(process.lines, k, resume, toInt)
  {
    var s := ClaudeBackend.Claude(process, resume, toInt);
    ClaudeTheorems.ClaudeClosed(process, resume, toInt);
    ClaudeTheorems.ClaudeCompletesIff(process, resume, toInt);
    TurnOnClosedStream(s, false);
    CallbackOnlyAdds(s, false, raisesAt);
  }
}
