/** What the two normalisers guarantee about every output a CLI can produce. */
module StreamContract {
  import opened Runtime
  import opened LineStreams

  /** The contract suite's own check: one terminal event in all, and it is the last one. */
  ghost function Terminals(events: seq<AgentEvent>): seq<AgentEvent> {
    if events == [] then []
    else Terminals(events[..|events| - 1]) +
         if Terminal(events[|events| - 1]) then [events[|events| - 1]] else []
  }

  ghost predicate SuiteAccepts(events: seq<AgentEvent>) {
    && events != []
    && |Terminals(events)| == 1
    && var last := events[|events| - 1];
      && Terminal(last)
      && (last.kind == TurnCompleted ==> last.result.Some? && last.error.None?)
      && (last.kind == Error ==> last.error.Some? && last.result.None?)
  }

  lemma {:induction false} NoTerminalsIff(events: seq<AgentEvent>)
    ensures Terminals(events) == [] <==> forall i :: 0 <= i < |events| ==> !Terminal(events[i])
  {
    if events != [] {
      var front := events[..|events| - 1];
      NoTerminalsIff(front);
      assert forall i :: 0 <= i < |front| ==> front[i] == events[i];
    }
  }

  /** The suite accepts exactly the streams whose only terminal event is the last one. */
  lemma SuiteAcceptsIffValid(events: seq<AgentEvent>)
    ensures SuiteAccepts(events) <==> ValidStream(events)
  {
    if events != [] {
      var front := events[..|events| - 1];
      NoTerminalsIff(front);
      assert forall i :: 0 <= i < |front| ==> front[i] == events[i];
    }
  }

  predicate NotAnObject(l: Line) {
    l.Parsed? && !l.v.Obj?
  }

  predicate Completes(s: Stream) {
    !s.escapes && |s.events| > 0 && s.events[|s.events| - 1].kind == TurnCompleted
  }

  /** A stream that either ends in its one terminal event or escapes without any. */
  ghost predicate Closed(s: Stream) {
    if s.escapes then NoTerminal(s.events) else SuiteAccepts(s.events)
  }

  lemma ClosedAfter(seen: seq<AgentEvent>, rest: Stream)
    requires NoTerminal(seen)
    requires rest == Stream([], true) || (|rest.events| == 1 && !rest.escapes && ValidStream(rest.events))
    ensures Closed(After(seen, rest))
    ensures Completes(After(seen, rest)) <==> Completes(rest)
    ensures rest.events != [] ==> After(seen, rest).events == seen + [rest.events[0]]
  {
    if rest.events == [] {
      assert seen + rest.events == seen;
    } else {
      assert rest.events == [rest.events[0]];
      ValidWhenClosed(seen, rest.events[0]);
      SuiteAcceptsIffValid(seen + [rest.events[0]]);
    }
  }

  /** The stream's last event is an error of this kind; only timeouts are retriable. */
  ghost predicate FailsWith(s: Stream, kind: ErrorKind) {
    && s.events != []
    && var last := s.events[|s.events| - 1];
      && last.kind == Error && last.error.Some?
      && last.error.value.kind == kind
      && (last.error.value.retriable <==> kind == Timeout)
  }

  lemma FailsAfter(seen: seq<AgentEvent>, kind: ErrorKind, reason: Reason)
    ensures FailsWith(After(seen, Only(Failed(kind, reason))), kind)
  {
    assert (seen + [Failed(kind, reason)])[|seen|] == Failed(kind, reason);
  }
}

module CodexTheorems {
  import opened Runtime
  import opened LineStreams
  import opened CodexBackend
  import opened StreamContract

  /** A line the run accepts: blank, or an object that has the fields its types call for. */
  predicate WellFormed(l: Line) {
    || l.Blank?
    || (l.Parsed? && l.v.Obj? &&
        (l.v.Get("type") == Str("thread.started") ==> l.v.Get("thread_id").Truthy()) &&
        (l.v.Get("type") == Str("item.completed") ==> WellFormedItem(l.v.Get("item"))))
  }

  predicate WellFormedItem(item: Json) {
    && item.Obj?
    && item.Get("type").Truthy()
    && (item.Get("type") == Str("tool_call") ==> item.Get("name").Truthy())
    && (item.Get("type") == Str("agent_message") ==> "text" in item.fields)
  }

  lemma ReadFacts(l: Line)
    ensures Read(l).stop == Go <==> WellFormed(l)
    ensures Read(l).stop == Raises <==> NotAnObject(l)
    ensures !Read(l).stop.Report?
    ensures Read(l).stop != Go ==> Read(l).events == []
    ensures NoTerminal(Read(l).events)
  {
  }

  lemma SeenNoTerminal(lines: seq<Line>, k: nat)
    requires k <= |lines|
    ensures NoTerminal(Yielded(Readings(lines)[..k]))
  {
    var rs := Readings(lines);
    forall r | r in rs[..k] ensures NoTerminal(r.events) {
      var i :| 0 <= i < k && r == rs[i];
      ReadFacts(lines[i]);
    }
    YieldedNoTerminal(rs[..k]);
  }

  lemma CodexStops(process: Process, resume: Json, k: nat)
    requires process.Spawned? && k < |process.lines| && !WellFormed(process.lines[k])
    requires forall i :: 0 <= i < k ==> WellFormed(process.lines[i])
    ensures var lines := process.lines;
      Codex(process, resume) == After(Yielded(Readings(lines)[..k]), Halt(Read(lines[k]).stop))
    ensures Closed(Codex(process, resume)) && !Completes(Codex(process, resume))
    ensures Codex(process, resume).escapes <==> NotAnObject(process.lines[k])
  {
    var lines, rs := process.lines, Readings(process.lines);
    forall i | 0 <= i <= k ensures rs[i].stop == Go <==> WellFormed(lines[i]) {
      ReadFacts(lines[i]);
    }
    ReadFacts(lines[k]);
    FirstStopIs(rs, k);
    SeenNoTerminal(lines, k);
    assert Yielded(rs[..k]) + rs[k].events == Yielded(rs[..k]);
    ClosedAfter(Yielded(rs[..k]), Halt(rs[k].stop));
  }

  lemma CodexRunsOut(process: Process, resume: Json)
    requires process.Spawned? && forall i :: 0 <= i < |process.lines| ==> WellFormed(process.lines[i])
    ensures var seen := Yielded(Readings(process.lines));
      var last := Close(process.ending, LastThread(seen, resume), LastText(seen, Str("")));
      Codex(process, resume) == After(seen, last) && NoTerminal(seen)
    ensures Closed(Codex(process, resume))
    ensures Completes(Codex(process, resume)) <==> process.ending == Exit(0)
    ensures Codex(process, resume).escapes <==> process.ending == OtherFault
  {
    var lines, rs := process.lines, Readings(process.lines);
    forall i | 0 <= i < |lines| ensures rs[i].stop == Go {
      ReadFacts(lines[i]);
    }
    FirstStopIs(rs, |rs|);
    assert rs[..|rs|] == rs;
    SeenNoTerminal(lines, |lines|);
    var seen := Yielded(rs);
    CloseFacts(process.ending, LastThread(seen, resume), LastText(seen, Str("")));
    ClosedAfter(seen, Close(process.ending, LastThread(seen, resume), LastText(seen, Str(""))));
  }

  lemma CloseFacts(ending: Ending, thread: Json, text: Json)
    ensures var h := Close(ending, thread, text);
      && (h == Stream([], true) || (|h.events| == 1 && !h.escapes && ValidStream(h.events)))
      && (Completes(h) <==> ending == Exit(0))
      && (h.escapes <==> ending == OtherFault)
  {
  }

  function FirstIllFormed(lines: seq<Line>): (k: nat)
    ensures k <= |lines|
    ensures forall i :: 0 <= i < k ==> WellFormed(lines[i])
    ensures k < |lines| ==> !WellFormed(lines[k])
  {
    if lines == [] || !WellFormed(lines[0]) then 0 else 1 + FirstIllFormed(lines[1..])
  }

  /** A run completes exactly when every line is well formed and the exit code is 0; its result
      then carries the last started thread, else the resume id, and the last message text. */
  lemma CodexCompletesIff(process: Process, resume: Json)
    ensures Completes(Codex(process, resume)) <==>
            process.Spawned? && process.ending == Exit(0) && forall l :: l in process.lines ==> WellFormed(l)
    ensures Completes(Codex(process, resume)) ==>
              var seen := Yielded(Readings(process.lines));
              Codex(process, resume).events ==
              seen + [Completed(RunResult(LastThread(seen, resume), LastText(seen, Str("")), TokenUsage(0, 0)))]
  {
    if process.Spawned? {
      var k := FirstIllFormed(process.lines);
      if k < |process.lines| {
        CodexStops(process, resume, k);
        assert process.lines[k] in process.lines;
      } else {
        CodexRunsOut(process, resume);
      }
    }
  }

  /** An exception escapes at line `k`: the first ill-formed line is parsed but no object. */
  ghost predicate EscapesAt(lines: seq<Line>, k: nat) {
    k < |lines| && NotAnObject(lines[k]) && forall i :: 0 <= i < k ==> WellFormed(lines[i])
  }

  lemma EscapesOnlyAtFirst(lines: seq<Line>)
    ensures var k := FirstIllFormed(lines);
      (exists j :: EscapesAt(lines, j)) <==> k < |lines| && NotAnObject(lines[k])
  {
    var k := FirstIllFormed(lines);
    if k < |lines| && NotAnObject(lines[k]) {
      assert EscapesAt(lines, k);
    }
    if j :| EscapesAt(lines, j) {
      assert j == k;
    }
  }

  /** Every run yields one terminal event, at the end, unless an exception escapes, and then it
      yields none. An exception escapes exactly when spawning fails, a line that stops the run is
      no object, or reading ends in an exception the code does not name. */
  lemma CodexClosed(process: Process, resume: Json)
    ensures Closed(Codex(process, resume))
    ensures Codex(process, resume).escapes <==>
      || process.SpawnFault?
      || (exists k :: EscapesAt(process.lines, k))
      || (process.ending == OtherFault && forall i :: 0 <= i < |process.lines| ==> WellFormed(process.lines[i]))
  {
    if process.Spawned? {
      var k := FirstIllFormed(process.lines);
      EscapesOnlyAtFirst(process.lines);
      if k < |process.lines| {
        CodexStops(process, resume, k);
      } else {
        CodexRunsOut(process, resume);
      }
    }
  }

  /** The earliest line that is not well formed decides, whatever follows it and however the
      process ends. */
  lemma CodexEarliestFailure(lines: seq<Line>, k: nat, ending: Ending, ending': Ending, resume: Json)
    requires k < |lines| && !WellFormed(lines[k])
    requires forall i :: 0 <= i < k ==> WellFormed(lines[i])
    ensures Codex(Spawned(lines, ending), resume) == Codex(Spawned(lines[..k + 1], ending'), resume)
  {
    CodexStops(Spawned(lines, ending), resume, k);
    CodexStops(Spawned(lines[..k + 1], ending'), resume, k);
    assert Readings(lines)[..k] == Readings(lines[..k + 1])[..k];
  }

  /** The kind of the error when a run neither completes nor raises: a protocol error if a line is
      ill-formed, else a timeout if reading timed out, else a crash. */
  function FailureKind(process: Process): ErrorKind
    requires process.Spawned?
  {
    if FirstIllFormed(process.lines) < |process.lines| then Protocol
    else if process.ending == TimedOut then Timeout
    else BackendCrash
  }

  lemma CodexErrorKind(process: Process, resume: Json)
    requires process.Spawned? && !Codex(process, resume).escapes
    ensures Completes(Codex(process, resume)) || FailsWith(Codex(process, resume), FailureKind(process))
  {
    var lines, k := process.lines, FirstIllFormed(process.lines);
    if k < |lines| {
      CodexStops(process, resume, k);
      ReadFacts(lines[k]);
      FailsAfter(Yielded(Readings(lines)[..k]), Protocol, Read(lines[k]).stop.reason);
    } else {
      CodexRunsOut(process, resume);
      if process.ending != Exit(0) {
        EndingFails(Yielded(Readings(lines)), process.ending, resume);
      }
    }
  }

  lemma EndingFails(seen: seq<AgentEvent>, ending: Ending, resume: Json)
    requires ending != OtherFault && ending != Exit(0)
    ensures var kind := if ending == TimedOut then Timeout else BackendCrash;
      FailsWith(After(seen, Close(ending, LastThread(seen, resume), LastText(seen, Str("")))), kind)
  {
    match ending
    case TimedOut => FailsAfter(seen, Timeout, ReadTimeout);
    case OsFault => FailsAfter(seen, BackendCrash, SubprocessFault);
    case Exit(code) => FailsAfter(seen, BackendCrash, Exited(code));
  }

  /** An array on a line of its own: the exception of `evt.get` escapes the generator, which has
      yielded nothing, although the process ends well. */
  lemma CodexEscapeWitness(resume: Json)
    ensures Codex(Spawned([Parsed(List([]))], Exit(0)), resume) == Stream([], true)
  {
    CodexStops(Spawned([Parsed(List([]))], Exit(0)), resume, 0);
  }
}

module ClaudeTheorems {
  import opened Wrappers
  import opened Runtime
  import opened LineStreams
  import opened ClaudeBackend
  import opened StreamContract

  predicate BlockOk(b: Json) {
    b.Obj? ==>
      && (b.Get("type") == Str("text") ==> "text" in b.fields)
      && (b.Get("type") == Str("tool_use") ==> b.Get("name").Truthy())
  }

  predicate Typed(l: Line, kind: string) {
    l.Parsed? && l.v.Obj? && l.v.Get("type") == Str(kind)
  }

  /** The line that opens a session. */
  predicate Inits(l: Line) {
    Typed(l, "system") && l.v.Get("subtype") == Str("init")
  }

  /** An assistant line has content blocks to read. */
  predicate HasBlocks(l: Line) {
    && Typed(l, "assistant")
    && l.v.Get("message").Obj? && l.v.Get("message").Get("content").List?
  }

  /** The content blocks of an assistant line. */
  function BlocksOf(l: Line): seq<Json> {
    if HasBlocks(l) then l.v.Get("message").Get("content").items else []
  }

  /** A line after which the run goes on reading. */
  predicate Proceeds(l: Line) {
    || l.Blank?
    || (l.Parsed? && l.v.Obj? && !Typed(l, "result") &&
        (Inits(l) ==> l.v.Get("session_id").Truthy()) &&
        (Typed(l, "assistant") ==> HasBlocks(l) && forall b :: b in BlocksOf(l) ==> BlockOk(b)))
  }

  /** A `result` line the run accepts, given the session id known so far. */
  predicate GoodReport(v: Json, session: Json, toInt: ToInt)
    requires v.Obj?
  {
    Agreeing(v, session) && UsageConverts(v, toInt)
  }

  /** The report's usage is absent or empty, or an object whose counts, where there are any, convert. */
  predicate UsageConverts(v: Json, toInt: ToInt)
    requires v.Obj?
  {
    v.Get("usage").Truthy() ==>
      && v.Get("usage").Obj?
      && (v.Get("usage").Get("input_tokens").Truthy() ==> toInt(v.Get("usage").Get("input_tokens")).Some?)
      && (v.Get("usage").Get("output_tokens").Truthy() ==> toInt(v.Get("usage").Get("output_tokens")).Some?)
  }

  /** A count of the report's usage: 0 unless it is there and neither empty nor zero. */
  function CountOf(v: Json, k: string, toInt: ToInt): int
    requires v.Obj?
  {
    var usage := v.Get("usage");
    if usage.Truthy() && usage.Obj? && usage.Get(k).Truthy() && toInt(usage.Get(k)).Some?
    then toInt(usage.Get(k)).value else 0
  }

  function CountsOf(v: Json, toInt: ToInt): TokenUsage
    requires v.Obj?
  {
    TokenUsage(CountOf(v, "input_tokens", toInt), CountOf(v, "output_tokens", toInt))
  }

  lemma UsageIs(v: Json, toInt: ToInt)
    requires v.Obj?
    ensures Usage(v, toInt) == if UsageConverts(v, toInt) then Some(CountsOf(v, toInt)) else None
  {
  }

  /** A `result` line accepted as far as its usage, which may not convert. */
  predicate Agreeing(v: Json, session: Json)
    requires v.Obj?
  {
    && !v.Get("is_error").Truthy()
    && "result" in v.fields
    && v.Get("session_id").Truthy()
    && (session == Null || v.Get("session_id") == session)
  }

  /** The session id of the last init line, else `initial`. */
  function LastInit(lines: seq<Line>, initial: Json): Json {
    if lines == [] then initial
    else
      var l := lines[|lines| - 1];
      if Inits(l) then l.v.Get("session_id")
      else LastInit(lines[..|lines| - 1], initial)
  }

  /** The text of the last text block of a list, else `initial`. */
  function LastBlockText(content: seq<Json>, initial: Json): Json {
    if content == [] then initial
    else
      var b := content[|content| - 1];
      if b.Obj? && b.Get("type") == Str("text") then
        if b.Get("text").Truthy() then b.Get("text") else Str("")
      else LastBlockText(content[..|content| - 1], initial)
  }

  /** The text of the last text block in any assistant line, else `initial`. */
  function LastAssistantText(lines: seq<Line>, initial: Json): Json {
    if lines == [] then initial
    else
      var l := lines[|lines| - 1];
      var before := LastAssistantText(lines[..|lines| - 1], initial);
      if HasBlocks(l) then LastBlockText(BlocksOf(l), before) else before
  }

  lemma BlockFacts(b: Json, thread: Json, text: Json)
    ensures ReadBlock(b).stop == Go <==> BlockOk(b)
    ensures ReadBlock(b).stop == Go || ReadBlock(b).stop.Broken?
    ensures NoTerminal(ReadBlock(b).events)
    ensures LastThread(ReadBlock(b).events, thread) == thread
    ensures BlockOk(b) ==> LastText(ReadBlock(b).events, text) == LastBlockText([b], text)
  {
    assert [b][..0] == [];
  }

  lemma LastBlockOf(content: seq<Json>, k: nat, text: Json)
    requires k < |content|
    ensures LastBlockText(content[..k + 1], text) == LastBlockText([content[k]], LastBlockText(content[..k], text))
  {
    assert content[..k + 1][..k] == content[..k] && [content[k]][..0] == [];
  }

  lemma {:induction false} BlocksFacts(content: seq<Json>, k: nat, thread: Json, text: Json)
    requires k <= |content| && forall i :: 0 <= i < k ==> BlockOk(content[i])
    ensures var events := Yielded(ReadBlocks(content)[..k]);
      && NoTerminal(events)
      && LastThread(events, thread) == thread
      && LastText(events, text) == LastBlockText(content[..k], text)
  {
    if k > 0 {
      var rs, seen := ReadBlocks(content), Yielded(ReadBlocks(content)[..k - 1]);
      BlocksFacts(content, k - 1, thread, text);
      YieldedSnoc(rs, k - 1);
      LastAfter(seen, rs[k - 1].events, thread, text);
      BlockFacts(content[k - 1], LastThread(seen, thread), LastText(seen, text));
      LastBlockOf(content, k - 1, text);
    }
  }

  lemma ComposeFacts(content: seq<Json>, thread: Json, text: Json)
    ensures var r := Compose(ReadBlocks(content));
      && (r.stop == Go <==> forall b :: b in content ==> BlockOk(b))
      && (r.stop == Go || r.stop.Broken?)
      && NoTerminal(r.events)
      && (r.stop == Go ==>
            LastThread(r.events, thread) == thread && LastText(r.events, text) == LastBlockText(content, text))
  {
    var rs := ReadBlocks(content);
    var k := FirstStop(rs);
    forall i | 0 <= i < |content|
      ensures rs[i].stop == Go <==> BlockOk(content[i])
      ensures rs[i].stop == Go || rs[i].stop.Broken?
    {
      BlockFacts(content[i], thread, text);
    }
    BlocksFacts(content, k, thread, text);
    if k < |rs| {
      assert content[k] in content;
    } else {
      assert content[..k] == content;
    }
  }

  lemma ReadFacts(l: Line)
    ensures Read(l).stop == Go <==> Proceeds(l)
    ensures Read(l).stop == Raises <==> NotAnObject(l)
    ensures Read(l).stop.Report? <==> Typed(l, "result")
    ensures Typed(l, "result") ==> Read(l) == Reading([], Report(l.v))
    ensures NoTerminal(Read(l).events)
  {
    if HasBlocks(l) {
      ComposeFacts(BlocksOf(l), Null, Null);
    }
  }

  lemma SeenNoTerminal(lines: seq<Line>, k: nat)
    requires k <= |lines|
    ensures NoTerminal(Yielded(Readings(lines)[..k]))
  {
    var rs := Readings(lines);
    forall r | r in rs[..k] ensures NoTerminal(r.events) {
      var i :| 0 <= i < k && r == rs[i];
      ReadFacts(lines[i]);
    }
    YieldedNoTerminal(rs[..k]);
  }

  /** What one line does to the loop's two variables. */
  lemma LineMeans(l: Line, thread: Json, text: Json)
    requires Proceeds(l)
    ensures LastThread(Read(l).events, thread) == LastInit([l], thread)
    ensures LastText(Read(l).events, text) == LastAssistantText([l], text)
  {
    assert [l][..0] == [];
    if HasBlocks(l) {
      ComposeFacts(BlocksOf(l), thread, text);
    }
  }

  lemma LastOfLines(lines: seq<Line>, k: nat, thread: Json, text: Json)
    requires k < |lines|
    ensures LastInit(lines[..k + 1], thread) == LastInit([lines[k]], LastInit(lines[..k], thread))
    ensures LastAssistantText(lines[..k + 1], text) ==
            LastAssistantText([lines[k]], LastAssistantText(lines[..k], text))
  {
    assert lines[..k + 1][..k] == lines[..k] && [lines[k]][..0] == [];
  }

  /** After `k` lines the loop's two variables mean what their names say. */
  ghost predicate VariablesMean(lines: seq<Line>, k: nat, thread: Json, text: Json)
    requires k <= |lines|
  {
    var seen := Yielded(Readings(lines)[..k]);
    && LastThread(seen, thread) == LastInit(lines[..k], thread)
    && LastText(seen, text) == LastAssistantText(lines[..k], text)
  }

  lemma LineKeepsMeaning(lines: seq<Line>, k: nat, thread: Json, text: Json)
    requires k < |lines| && Proceeds(lines[k]) && VariablesMean(lines, k, thread, text)
    ensures VariablesMean(lines, k + 1, thread, text)
  {
    var seen := Yielded(Readings(lines)[..k]);
    YieldedSnoc(Readings(lines), k);
    LastAfter(seen, Read(lines[k]).events, thread, text);
    LineMeans(lines[k], LastThread(seen, thread), LastText(seen, text));
    LastOfLines(lines, k, thread, text);
  }

  lemma {:induction false} SeenMeans(lines: seq<Line>, k: nat, thread: Json, text: Json)
    requires k <= |lines| && forall i :: 0 <= i < k ==> Proceeds(lines[i])
    ensures VariablesMean(lines, k, thread, text)
  {
    if k > 0 {
      SeenMeans(lines, k - 1, thread, text);
      LineKeepsMeaning(lines, k - 1, thread, text);
    }
  }

  /** Line `k` is the first `result` line, everything before it is well formed, and it is good. */
  ghost predicate CompletesAt(lines: seq<Line>, k: nat, resume: Json, toInt: ToInt) {
    && k < |lines|
    && Typed(lines[k], "result")
    && (forall i :: 0 <= i < k ==> Proceeds(lines[i]))
    && GoodReport(lines[k].v, LastInit(lines[..k], resume), toInt)
  }

  lemma ClaudeStops(process: Process, resume: Json, toInt: ToInt, k: nat)
    requires process.Spawned? && k < |process.lines| && !Proceeds(process.lines[k])
    requires forall i :: 0 <= i < k ==> Proceeds(process.lines[i])
    ensures var lines := process.lines;
      Claude(process, resume, toInt) ==
      After(Yielded(Readings(lines)[..k]) + Read(lines[k]).events,
            Halt(Read(lines[k]).stop, LastInit(lines[..k], resume), LastAssistantText(lines[..k], Str("")), toInt))
    ensures NoTerminal(Yielded(Readings(process.lines)[..k]) + Read(process.lines[k]).events)
  {
    var lines, rs := process.lines, Readings(process.lines);
    forall i | 0 <= i <= k ensures rs[i].stop == Go <==> Proceeds(lines[i]) {
      ReadFacts(lines[i]);
    }
    FirstStopIs(rs, k);
    SeenMeans(lines, k, resume, Str(""));
    SeenNoTerminal(lines, k);
    ReadFacts(lines[k]);
  }

  lemma ClaudeRunsOut(process: Process, resume: Json, toInt: ToInt)
    requires process.Spawned? && forall i :: 0 <= i < |process.lines| ==> Proceeds(process.lines[i])
    ensures Claude(process, resume, toInt) == After(Yielded(Readings(process.lines)), Close(process.ending))
    ensures NoTerminal(Yielded(Readings(process.lines)))
  {
    var lines, rs := process.lines, Readings(process.lines);
    forall i | 0 <= i < |lines| ensures rs[i].stop == Go {
      ReadFacts(lines[i]);
    }
    FirstStopIs(rs, |rs|);
    assert rs[..|rs|] == rs;
    SeenNoTerminal(lines, |lines|);
  }

  function FirstNotProceeding(lines: seq<Line>): (k: nat)
    ensures k <= |lines|
    ensures forall i :: 0 <= i < k ==> Proceeds(lines[i])
    ensures k < |lines| ==> !Proceeds(lines[k])
  {
    if lines == [] || !Proceeds(lines[0]) then 0 else 1 + FirstNotProceeding(lines[1..])
  }

  /** A `result` line accepted but for its usage, whose conversion raises. */
  predicate BadUsage(v: Json, session: Json, toInt: ToInt)
    requires v.Obj?
  {
    Agreeing(v, session) && !UsageConverts(v, toInt)
  }

  lemma HaltFacts(l: Line, session: Json, text: Json, toInt: ToInt)
    requires !Proceeds(l)
    ensures var h := Halt(Read(l).stop, session, text, toInt);
      && (h == Stream([], true) || (|h.events| == 1 && !h.escapes && ValidStream(h.events)))
      && (Completes(h) <==> Typed(l, "result") && GoodReport(l.v, session, toInt))
      && (h.escapes <==> NotAnObject(l) || (Typed(l, "result") && BadUsage(l.v, session, toInt)))
      && (Completes(h) ==> h == Only(Completed(RunResult(
              l.v.Get("session_id"), if l.v.Get("result").Truthy() then l.v.Get("result") else text,
              CountsOf(l.v, toInt)))))
  {
    ReadFacts(l);
    if Typed(l, "result") {
      UsageIs(l.v, toInt);
    }
  }

  /** An exception escapes at line `k`. */
  ghost predicate EscapesAt(lines: seq<Line>, k: nat, resume: Json, toInt: ToInt) {
    && k < |lines|
    && (forall i :: 0 <= i < k ==> Proceeds(lines[i]))
    && (|| NotAnObject(lines[k])
        || (Typed(lines[k], "result") && BadUsage(lines[k].v, LastInit(lines[..k], resume), toInt)))
  }

  lemma ClaudeStopsFacts(process: Process, resume: Json, toInt: ToInt, k: nat)
    requires process.Spawned? && k < |process.lines| && !Proceeds(process.lines[k])
    requires forall i :: 0 <= i < k ==> Proceeds(process.lines[i])
    ensures Closed(Claude(process, resume, toInt))
    ensures Completes(Claude(process, resume, toInt)) <==> CompletesAt(process.lines, k, resume, toInt)
    ensures Claude(process, resume, toInt).escapes <==> EscapesAt(process.lines, k, resume, toInt)
    ensures forall j: nat :: CompletesAt(process.lines, j, resume, toInt) ==> j == k
    ensures forall j: nat :: EscapesAt(process.lines, j, resume, toInt) ==> j == k
  {
    var lines := process.lines;
    ClaudeStops(process, resume, toInt, k);
    var session, text := LastInit(lines[..k], resume), LastAssistantText(lines[..k], Str(""));
    HaltFacts(lines[k], session, text, toInt);
    ClosedAfter(Yielded(Readings(lines)[..k]) + Read(lines[k]).events, Halt(Read(lines[k]).stop, session, text, toInt));
  }

  lemma NeitherAt(lines: seq<Line>, j: nat, resume: Json, toInt: ToInt)
    requires forall i :: 0 <= i < |lines| ==> Proceeds(lines[i])
    ensures !CompletesAt(lines, j, resume, toInt) && !EscapesAt(lines, j, resume, toInt)
  {
  }

  lemma CloseFacts(ending: Ending)
    ensures var h := Close(ending);
      && (h == Stream([], true) || (|h.events| == 1 && !h.escapes && ValidStream(h.events)))
      && !Completes(h)
      && (h.escapes <==> ending == OtherFault)
  {
  }

  lemma ClaudeRunsOutFacts(process: Process, resume: Json, toInt: ToInt)
    requires process.Spawned? && forall i :: 0 <= i < |process.lines| ==> Proceeds(process.lines[i])
    ensures Closed(Claude(process, resume, toInt))
    ensures !Completes(Claude(process, resume, toInt))
    ensures Claude(process, resume, toInt).escapes <==> process.ending == OtherFault
  {
    ClaudeRunsOut(process, resume, toInt);
    CloseFacts(process.ending);
    ClosedAfter(Yielded(Readings(process.lines)), Close(process.ending));
  }

  /** A run completes exactly when it has a completing report line. */
  lemma ClaudeCompletesIff(process: Process, resume: Json, toInt: ToInt)
    ensures Completes(Claude(process, resume, toInt)) <==>
            process.Spawned? && exists k :: CompletesAt(process.lines, k, resume, toInt)
  {
    if process.Spawned? {
      var k := FirstNotProceeding(process.lines);
      if k < |process.lines| {
        ClaudeStopsFacts(process, resume, toInt, k);
      } else {
        ClaudeRunsOutFacts(process, resume, toInt);
        forall j: nat
          ensures !CompletesAt(process.lines, j, resume, toInt) && !EscapesAt(process.lines, j, resume, toInt)
        {
          NeitherAt(process.lines, j, resume, toInt);
        }
      }
    }
  }

  /** The result of a completing run: the report's own session id, its text, or the last text
      block when that is empty; nothing after the report line matters, nor does the ending. */
  lemma ClaudeResult(lines: seq<Line>, k: nat, ending: Ending, resume: Json, toInt: ToInt)
    requires CompletesAt(lines, k, resume, toInt)
    ensures var v := lines[k].v;
      Claude(Spawned(lines, ending), resume, toInt).events ==
      Yielded(Readings(lines[..k])) +
      [Completed(RunResult(v.Get("session_id"),
                           if v.Get("result").Truthy() then v.Get("result") else LastAssistantText(lines[..k], Str("")),
                           CountsOf(v, toInt)))]
  {
    var p := Spawned(lines, ending);
    ClaudeStops(p, resume, toInt, k);
    ReadFacts(lines[k]);
    var seen := Yielded(Readings(lines)[..k]);
    assert seen + Read(lines[k]).events == seen;
    assert Readings(lines)[..k] == Readings(lines[..k]);
    HaltFacts(lines[k], LastInit(lines[..k], resume), LastAssistantText(lines[..k], Str("")), toInt);
  }

  lemma PrefixReads(lines: seq<Line>, k: nat)
    requires k < |lines|
    ensures lines[..k + 1][..k] == lines[..k] && lines[..k + 1][k] == lines[k]
    ensures Readings(lines[..k + 1])[..k] == Readings(lines)[..k]
  {
  }

  /** Whatever line stops a run, what follows it and how the process ends are irrelevant. */
  lemma ClaudeIgnoresTail(lines: seq<Line>, k: nat, ending: Ending, ending': Ending, resume: Json, toInt: ToInt)
    requires k < |lines| && !Proceeds(lines[k])
    requires forall i :: 0 <= i < k ==> Proceeds(lines[i])
    ensures Claude(Spawned(lines, ending), resume, toInt) == Claude(Spawned(lines[..k + 1], ending'), resume, toInt)
  {
    ClaudeStops(Spawned(lines, ending), resume, toInt, k);
    ClaudeStops(Spawned(lines[..k + 1], ending'), resume, toInt, k);
    PrefixReads(lines, k);
  }

  /** Every run yields one terminal event, at the end, or lets an exception escape and yields
      none, also when the fault lies midway through the blocks of an assistant message. An
      exception escapes exactly when spawning fails, a line that stops the run is no object or
      has an unusable usage, or reading ends in an exception the code does not name. */
  lemma ClaudeClosed(process: Process, resume: Json, toInt: ToInt)
    ensures Closed(Claude(process, resume, toInt))
    ensures Claude(process, resume, toInt).escapes <==>
      || process.SpawnFault?
      || (exists k :: EscapesAt(process.lines, k, resume, toInt))
      || (process.ending == OtherFault && forall i :: 0 <= i < |process.lines| ==> Proceeds(process.lines[i]))
  {
    if process.Spawned? {
      var k := FirstNotProceeding(process.lines);
      if k < |process.lines| {
        ClaudeStopsFacts(process, resume, toInt, k);
      } else {
        ClaudeRunsOutFacts(process, resume, toInt);
        forall j: nat
          ensures !CompletesAt(process.lines, j, resume, toInt) && !EscapesAt(process.lines, j, resume, toInt)
        {
          NeitherAt(process.lines, j, resume, toInt);
        }
      }
    }
  }

  /** The kind of the error when a run neither completes nor raises: a crash if the line that
      stops it is a report of an error, a protocol error if it is any other line; if none stops
      it, what the ending says, and a protocol error after a normal exit. */
  function FailureKind(process: Process): ErrorKind
    requires process.Spawned?
  {
    var k := FirstNotProceeding(process.lines);
    if k < |process.lines| then
      var l := process.lines[k];
      if Typed(l, "result") && l.v.Get("is_error").Truthy() then BackendCrash else Protocol
    else if process.ending == TimedOut then Timeout
    else if process.ending == Exit(0) then Protocol
    else BackendCrash
  }

  lemma ClaudeErrorKind(process: Process, resume: Json, toInt: ToInt)
    requires process.Spawned? && !Claude(process, resume, toInt).escapes
    ensures Completes(Claude(process, resume, toInt)) ||
            FailsWith(Claude(process, resume, toInt), FailureKind(process))
  {
    var lines, k := process.lines, FirstNotProceeding(process.lines);
    if k < |lines| {
      ClaudeStops(process, resume, toInt, k);
      var seen := Yielded(Readings(lines)[..k]) + Read(lines[k]).events;
      HaltFails(seen, lines[k], LastInit(lines[..k], resume), LastAssistantText(lines[..k], Str("")), toInt);
    } else {
      ClaudeRunsOut(process, resume, toInt);
      EndingFails(Yielded(Readings(lines)), process.ending);
    }
  }

  lemma HaltFails(seen: seq<AgentEvent>, l: Line, session: Json, text: Json, toInt: ToInt)
    requires !Proceeds(l)
    ensures var h := Halt(Read(l).stop, session, text, toInt);
      var kind := if Typed(l, "result") && l.v.Get("is_error").Truthy() then BackendCrash else Protocol;
      h.escapes || Completes(After(seen, h)) || FailsWith(After(seen, h), kind)
  {
    ReadFacts(l);
    HaltFacts(l, session, text, toInt);
    var h := Halt(Read(l).stop, session, text, toInt);
    if !h.escapes {
      var e := h.events[0];
      assert After(seen, h).events == seen + [e];
      if !Completes(h) {
        FailsAfter(seen, e.error.value.kind, e.error.value.reason);
      }
    }
  }

  lemma EndingFails(seen: seq<AgentEvent>, ending: Ending)
    requires ending != OtherFault
    ensures FailsWith(After(seen, Close(ending)),
                      if ending == TimedOut then Timeout else if ending == Exit(0) then Protocol else BackendCrash)
  {
    match ending
    case TimedOut => FailsAfter(seen, Timeout, ReadTimeout);
    case OsFault => FailsAfter(seen, BackendCrash, SubprocessFault);
    case Exit(code) =>
      FailsAfter(seen, BackendCrash, Exited(code));
      FailsAfter(seen, Protocol, NoResult);
  }

  /** Two runs of one line whose exception escapes the generator: an array, and a report whose
      usage is an array. */
  lemma ClaudeEscapeWitness(resume: Json, toInt: ToInt)
    ensures Claude(Spawned([Parsed(List([]))], Exit(0)), resume, toInt) == Stream([], true)
    ensures var report := Obj(map["type" := Str("result"), "result" := Str("done"), "session_id" := Str("s"),
                                  "usage" := List([Null])]);
      Claude(Spawned([Parsed(report)], Exit(0)), Null, toInt) == Stream([], true)
  {
    ClaudeStops(Spawned([Parsed(List([]))], Exit(0)), resume, toInt, 0);
    var report := Obj(map["type" := Str("result"), "result" := Str("done"), "session_id" := Str("s"),
                          "usage" := List([Null])]);
    ClaudeStops(Spawned([Parsed(report)], Exit(0)), Null, toInt, 0);
  }
}
