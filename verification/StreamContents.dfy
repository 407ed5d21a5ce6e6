/** What the events of a stream carry, kind by kind and in order. */
module StreamContents {
  import opened Wrappers
  import opened Runtime
  import opened LineStreams

  /** The threads that the events start. */
  function ThreadsIn(events: seq<AgentEvent>): seq<Json> {
    if events == [] then []
    else
      var last := events[|events| - 1];
      ThreadsIn(events[..|events| - 1]) + if last.kind == ThreadStarted then [last.thread] else []
  }

  /** The texts of the messages that the events complete. */
  function TextsIn(events: seq<AgentEvent>): seq<Json> {
    if events == [] then []
    else
      var last := events[|events| - 1];
      TextsIn(events[..|events| - 1]) + if last.kind == MessageCompleted then [last.text] else []
  }

  /** The tool calls that the events complete. */
  function CallsIn(events: seq<AgentEvent>): seq<Option<ToolEvent>> {
    if events == [] then []
    else
      var last := events[|events| - 1];
      CallsIn(events[..|events| - 1]) + if last.kind == ToolCallCompleted then [last.tool] else []
  }

  /** An event that carries its kind's payload and no other: what a run yields before its end. */
  predicate OfLine(e: AgentEvent) {
    || e == AgentEvent(ThreadStarted, e.thread, Null, None, None, None)
    || e == AgentEvent(MessageCompleted, Null, e.text, None, None, None)
    || (e.tool.Some? && e == AgentEvent(ToolCallCompleted, Null, Null, e.tool, None, None))
  }

  ghost predicate AllOfLine(events: seq<AgentEvent>) {
    forall e :: e in events ==> OfLine(e)
  }

  lemma {:induction false} YieldedOfLine(rs: seq<Reading>)
    requires forall i :: 0 <= i < |rs| ==> AllOfLine(rs[i].events)
    ensures AllOfLine(Yielded(rs))
  {
    if rs != [] {
      YieldedOfLine(rs[..|rs| - 1]);
    }
  }

  /** What a run of events carries. */
  datatype Contents = Contents(threads: seq<Json>, texts: seq<Json>, calls: seq<Option<ToolEvent>>)
  {
    function Plus(c: Contents): Contents {
      Contents(threads + c.threads, texts + c.texts, calls + c.calls)
    }
  }

  const EMPTY := Contents([], [], [])

  function ContentsOf(events: seq<AgentEvent>): Contents {
    Contents(ThreadsIn(events), TextsIn(events), CallsIn(events))
  }

  lemma {:induction false} ContentsPlus(a: seq<AgentEvent>, b: seq<AgentEvent>)
    ensures ContentsOf(a + b) == ContentsOf(a).Plus(ContentsOf(b))
  {
    if b == [] {
      assert a + b == a;
    } else {
      var front, last := b[..|b| - 1], b[|b| - 1];
      ContentsPlus(a, front);
      assert (a + b)[..|a + b| - 1] == a + front && (a + b)[|a + b| - 1] == last;
    }
  }

  lemma PlusEmpty(c: Contents)
    ensures c.Plus(EMPTY) == c && EMPTY.Plus(c) == c
  {
    assert c.threads + [] == c.threads && c.texts + [] == c.texts && c.calls + [] == c.calls;
    assert [] + c.threads == c.threads && [] + c.texts == c.texts && [] + c.calls == c.calls;
  }

  lemma OneSays(e: AgentEvent)
    ensures ContentsOf([e]) == Contents(if e.kind == ThreadStarted then [e.thread] else [],
                                        if e.kind == MessageCompleted then [e.text] else [],
                                        if e.kind == ToolCallCompleted then [e.tool] else [])
  {
    assert [e][..0] == [] && ContentsOf([]) == EMPTY;
    assert ThreadsIn([e]) == ThreadsIn([]) + (if e.kind == ThreadStarted then [e.thread] else []);
    assert TextsIn([e]) == TextsIn([]) + (if e.kind == MessageCompleted then [e.text] else []);
    assert CallsIn([e]) == CallsIn([]) + (if e.kind == ToolCallCompleted then [e.tool] else []);
  }

  lemma YieldedMore(rs: seq<Reading>, k: nat)
    requires k < |rs|
    ensures ContentsOf(Yielded(rs[..k + 1])) == ContentsOf(Yielded(rs[..k])).Plus(ContentsOf(rs[k].events))
  {
    YieldedSnoc(rs, k);
    ContentsPlus(Yielded(rs[..k]), rs[k].events);
  }

  /** One event that ends a run carries nothing of these kinds. */
  lemma TerminalCarriesNothing(e: AgentEvent)
    requires Terminal(e)
    ensures ContentsOf([e]) == EMPTY
  {
    OneSays(e);
  }

  /** A terminal event, or an escape, adds nothing. */
  lemma EndSays(seen: seq<AgentEvent>, last: Stream)
    requires last.events == [] || (|last.events| == 1 && Terminal(last.events[0]))
    ensures ContentsOf(After(seen, last).events) == ContentsOf(seen)
    ensures |After(seen, last).events| <= |seen| + 1 && After(seen, last).events[..|seen|] == seen
  {
    ContentsPlus(seen, last.events);
    if last.events != [] {
      assert last.events == [last.events[0]];
      TerminalCarriesNothing(last.events[0]);
    }
    PlusEmpty(ContentsOf(seen));
  }

  /** The last thread, and the last text, are the last of the contents. */
  lemma {:induction false} LastIsLast(events: seq<AgentEvent>, thread: Json, text: Json)
    ensures LastThread(events, thread) ==
            if ThreadsIn(events) == [] then thread else ThreadsIn(events)[|ThreadsIn(events)| - 1]
    ensures LastText(events, text) ==
            if TextsIn(events) == [] then text else TextsIn(events)[|TextsIn(events)| - 1]
  {
    if events != [] {
      LastIsLast(events[..|events| - 1], thread, text);
    }
  }

  /** What the error says of the end of a process without a terminal event. */
  function EndFault(ending: Ending): Reason {
    match ending
    case TimedOut => ReadTimeout
    case Exit(code) => if code == 0 then NoResult else Exited(code)
    case _ => SubprocessFault
  }

  /** The last event is an error for this reason. */
  predicate Names(events: seq<AgentEvent>, reason: Reason) {
    events != [] && events[|events| - 1].error.Some? && events[|events| - 1].error.value.reason == reason
  }

  lemma NamesLast(seen: seq<AgentEvent>, kind: ErrorKind, reason: Reason)
    ensures Names(After(seen, Only(Failed(kind, reason))).events, reason)
  {
    LastOf(seen, Failed(kind, reason));
  }

  lemma LastOf(seen: seq<AgentEvent>, e: AgentEvent)
    ensures After(seen, Only(e)).events != []
    ensures After(seen, Only(e)).events[|After(seen, Only(e)).events| - 1] == e
  {
  }

  function OrEmpty(v: Json): Json {
    if v.Truthy() then v else Str("")
  }
}

/** The codex normaliser yields exactly what its lines say. */
module CodexContents {
  import opened Wrappers
  import opened Runtime
  import opened LineStreams
  import opened StreamContract
  import opened StreamContents
  import opened CodexBackend
  import opened CodexTheorems

  predicate Typed(l: Line, kind: string) {
    l.Parsed? && l.v.Obj? && l.v.Get("type") == Str(kind)
  }

  /** The line completes an item of this type. */
  predicate ItemTyped(l: Line, kind: string) {
    Typed(l, "item.completed") && l.v.Get("item").Obj? && l.v.Get("item").Get("type") == Str(kind)
  }

  /** What a line says. */
  function SaidBy(l: Line): Contents {
    if Typed(l, "thread.started") then Contents([l.v.Get("thread_id")], [], [])
    else if ItemTyped(l, "agent_message") then Contents([], [OrEmpty(l.v.Get("item").Get("text"))], [])
    else if ItemTyped(l, "tool_call") then
      var item := l.v.Get("item");
      Contents([], [], [Some(ToolEvent(item.Get("name"), item.Get("input"), item.Get("output")))])
    else EMPTY
  }

  function Said(lines: seq<Line>): Contents {
    if lines == [] then EMPTY else Said(lines[..|lines| - 1]).Plus(SaidBy(lines[|lines| - 1]))
  }

  lemma SaidMore(lines: seq<Line>, k: nat)
    requires k < |lines|
    ensures Said(lines[..k + 1]) == Said(lines[..k]).Plus(SaidBy(lines[k]))
  {
    assert lines[..k + 1][..k] == lines[..k];
  }

  lemma LineSays(l: Line)
    requires WellFormed(l)
    ensures ContentsOf(Read(l).events) == SaidBy(l)
    ensures AllOfLine(Read(l).events)
  {
    var events := Read(l).events;
    if events != [] {
      assert events == [events[0]];
      OneSays(events[0]);
    }
  }

  lemma {:induction false} LinesSay(lines: seq<Line>, k: nat)
    requires k <= |lines| && forall i :: 0 <= i < k ==> WellFormed(lines[i])
    ensures ContentsOf(Yielded(Readings(lines)[..k])) == Said(lines[..k])
  {
    if k > 0 {
      var rs := Readings(lines);
      LinesSay(lines, k - 1);
      LineSays(lines[k - 1]);
      YieldedMore(rs, k - 1);
      SaidMore(lines, k - 1);
    }
  }

  lemma LinesYield(lines: seq<Line>, k: nat)
    requires k <= |lines| && forall i :: 0 <= i < k ==> WellFormed(lines[i])
    ensures AllOfLine(Yielded(Readings(lines)[..k]))
  {
    forall i | 0 <= i < k ensures AllOfLine(Readings(lines)[..k][i].events) {
      LineSays(lines[i]);
    }
    YieldedOfLine(Readings(lines)[..k]);
  }

  /** The whole stream of a run: the events of the lines before the first ill-formed one carry
      exactly what those lines say, in order, and the terminal event comes after. */
  lemma CodexStreamSays(process: Process, resume: Json)
    requires process.Spawned?
    ensures var events := Codex(process, resume).events;
      var k := FirstIllFormed(process.lines);
      && ContentsOf(events) == Said(process.lines[..k])
      && forall i :: 0 <= i < |events| - 1 ==> OfLine(events[i])
  {
    var lines, k := process.lines, FirstIllFormed(process.lines);
    var seen := Yielded(Readings(lines)[..k]);
    LinesSay(lines, k);
    LinesYield(lines, k);
    if k < |lines| {
      CodexStops(process, resume, k);
      EndSays(seen, Halt(Read(lines[k]).stop));
    } else {
      CodexRunsOut(process, resume);
      assert Readings(lines)[..k] == Readings(lines);
      CloseFacts(process.ending, LastThread(seen, resume), LastText(seen, Str("")));
      EndSays(seen, Close(process.ending, LastThread(seen, resume), LastText(seen, Str(""))));
    }
  }

  lemma SeenSays(lines: seq<Line>, resume: Json)
    requires forall i :: 0 <= i < |lines| ==> WellFormed(lines[i])
    ensures var seen, said := Yielded(Readings(lines)), Said(lines);
      && LastThread(seen, resume) == (if said.threads == [] then resume else said.threads[|said.threads| - 1])
      && LastText(seen, Str("")) == (if said.texts == [] then Str("") else said.texts[|said.texts| - 1])
  {
    LinesSay(lines, |lines|);
    assert lines[..|lines|] == lines && Readings(lines)[..|lines|] == Readings(lines);
    LastIsLast(Yielded(Readings(lines)), resume, Str(""));
  }

  /** The result of a completing run: the thread of the last thread.started line, else the resume
      id, and the text of the last agent_message, else the empty text; and no usage. */
  lemma CodexResultSays(process: Process, resume: Json)
    requires Completes(Codex(process, resume))
    ensures var said, events := Said(process.lines), Codex(process, resume).events;
      events[|events| - 1].result ==
      Some(RunResult(if said.threads == [] then resume else said.threads[|said.threads| - 1],
                     if said.texts == [] then Str("") else said.texts[|said.texts| - 1],
                     TokenUsage(0, 0)))
  {
    CodexCompletesIff(process, resume);
    forall i | 0 <= i < |process.lines| ensures WellFormed(process.lines[i]) {
      assert process.lines[i] in process.lines;
    }
    SeenSays(process.lines, resume);
  }

  /** What is wrong with an ill-formed line. */
  function Fault(l: Line): Reason {
    if l.Malformed? then Unparsable
    else if Typed(l, "thread.started") then Missing("thread_id")
    else if ItemTyped(l, "tool_call") then Missing("name")
    else if ItemTyped(l, "agent_message") then Missing("text")
    else Missing("item.type")
  }

  /** What the error of a run that neither completes nor raises says: what is wrong with its first
      ill-formed line, else how the process ended. */
  lemma CodexErrorNames(process: Process, resume: Json)
    requires process.Spawned? && !Codex(process, resume).escapes && !Completes(Codex(process, resume))
    ensures var k := FirstIllFormed(process.lines);
      Names(Codex(process, resume).events,
            if k < |process.lines| then Fault(process.lines[k]) else EndFault(process.ending))
  {
    var lines, k := process.lines, FirstIllFormed(process.lines);
    if k < |lines| {
      CodexStops(process, resume, k);
      ReadFacts(lines[k]);
      LineFault(lines[k]);
      NamesLast(Yielded(Readings(lines)[..k]), Protocol, Fault(lines[k]));
    } else {
      CodexRunsOut(process, resume);
      var kind := if process.ending.TimedOut? then Timeout else BackendCrash;
      NamesLast(Yielded(Readings(lines)), kind, EndFault(process.ending));
    }
  }

  lemma LineFault(l: Line)
    requires !WellFormed(l) && !NotAnObject(l)
    ensures Halt(Read(l).stop) == Only(Failed(Protocol, Fault(l)))
  {
  }
}

/** The claude normaliser yields exactly what its lines and blocks say. */
module ClaudeContents {
  import opened Wrappers
  import opened Runtime
  import opened LineStreams
  import opened StreamContract
  import opened StreamContents
  import opened ClaudeBackend
  import opened ClaudeTheorems

  predicate BlockTyped(b: Json, kind: string) {
    b.Obj? && b.Get("type") == Str(kind)
  }

  /** What a content block says. */
  function SaidByBlock(b: Json): Contents {
    if BlockTyped(b, "text") then Contents([], [OrEmpty(b.Get("text"))], [])
    else if BlockTyped(b, "tool_use") then Contents([], [], [Some(ToolEvent(b.Get("name"), b.Get("input"), Null))])
    else EMPTY
  }

  function SaidByBlocks(content: seq<Json>): Contents {
    if content == [] then EMPTY
    else SaidByBlocks(content[..|content| - 1]).Plus(SaidByBlock(content[|content| - 1]))
  }

  lemma SaidMoreBlocks(content: seq<Json>, k: nat)
    requires k < |content|
    ensures SaidByBlocks(content[..k + 1]) == SaidByBlocks(content[..k]).Plus(SaidByBlock(content[k]))
  {
    assert content[..k + 1][..k] == content[..k];
  }

  /** The blocks before the first that is not well formed. */
  function GoodBlocks(content: seq<Json>): (n: nat)
    ensures n <= |content|
    ensures forall i :: 0 <= i < n ==> BlockOk(content[i])
    ensures n < |content| ==> !BlockOk(content[n])
  {
    if content == [] || !BlockOk(content[0]) then 0 else 1 + GoodBlocks(content[1..])
  }

  /** What a line says, up to its first bad block. */
  function SaidBy(l: Line): Contents {
    if Inits(l) && l.v.Get("session_id").Truthy() then Contents([l.v.Get("session_id")], [], [])
    else SaidByBlocks(BlocksOf(l)[..GoodBlocks(BlocksOf(l))])
  }

  function Said(lines: seq<Line>): Contents {
    if lines == [] then EMPTY else Said(lines[..|lines| - 1]).Plus(SaidBy(lines[|lines| - 1]))
  }

  lemma SaidMore(lines: seq<Line>, k: nat)
    requires k < |lines|
    ensures Said(lines[..k + 1]) == Said(lines[..k]).Plus(SaidBy(lines[k]))
  {
    assert lines[..k + 1][..k] == lines[..k];
  }

  lemma BlockSays(b: Json)
    requires BlockOk(b)
    ensures ContentsOf(ReadBlock(b).events) == SaidByBlock(b)
    ensures AllOfLine(ReadBlock(b).events)
  {
    var events := ReadBlock(b).events;
    if events != [] {
      assert events == [events[0]];
      OneSays(events[0]);
    }
  }

  lemma {:induction false} BlocksSay(content: seq<Json>, k: nat)
    requires k <= |content| && forall i :: 0 <= i < k ==> BlockOk(content[i])
    ensures ContentsOf(Yielded(ReadBlocks(content)[..k])) == SaidByBlocks(content[..k])
  {
    if k > 0 {
      var rs := ReadBlocks(content);
      BlocksSay(content, k - 1);
      BlockSays(content[k - 1]);
      YieldedMore(rs, k - 1);
      SaidMoreBlocks(content, k - 1);
    }
  }

  lemma ComposedSays(content: seq<Json>)
    ensures var events := Compose(ReadBlocks(content)).events;
      && ContentsOf(events) == SaidByBlocks(content[..GoodBlocks(content)])
      && AllOfLine(events)
  {
    var rs, n := ReadBlocks(content), GoodBlocks(content);
    forall i | 0 <= i < |content| ensures rs[i].stop == Go <==> BlockOk(content[i]) {
      BlockFacts(content[i], Null, Null);
    }
    ComposeIs(rs, n);
    BlocksSay(content, n);
    forall i | 0 <= i < n ensures AllOfLine(rs[..n][i].events) {
      BlockSays(content[i]);
    }
    YieldedOfLine(rs[..n]);
  }

  lemma LineSays(l: Line)
    ensures ContentsOf(Read(l).events) == SaidBy(l)
    ensures AllOfLine(Read(l).events)
  {
    if HasBlocks(l) {
      ComposedSays(BlocksOf(l));
    } else if Inits(l) && l.v.Get("session_id").Truthy() {
      assert Read(l).events == [Read(l).events[0]];
      OneSays(Read(l).events[0]);
    }
  }

  lemma {:induction false} LinesSay(lines: seq<Line>, k: nat)
    requires k <= |lines|
    ensures ContentsOf(Yielded(Readings(lines)[..k])) == Said(lines[..k])
  {
    if k > 0 {
      var rs := Readings(lines);
      LinesSay(lines, k - 1);
      LineSays(lines[k - 1]);
      YieldedMore(rs, k - 1);
      SaidMore(lines, k - 1);
    }
  }

  lemma LinesYield(lines: seq<Line>, k: nat)
    requires k <= |lines|
    ensures AllOfLine(Yielded(Readings(lines)[..k]))
  {
    forall i | 0 <= i < k ensures AllOfLine(Readings(lines)[..k][i].events) {
      LineSays(lines[i]);
    }
    YieldedOfLine(Readings(lines)[..k]);
  }

  /** How many lines are read, the one that stops the run included. */
  function LinesRead(lines: seq<Line>): (n: nat)
    ensures n <= |lines|
  {
    if FirstNotProceeding(lines) < |lines| then FirstNotProceeding(lines) + 1 else |lines|
  }

  lemma StreamSplits(process: Process, resume: Json, toInt: ToInt) returns (last: Stream)
    requires process.Spawned?
    ensures last.events == [] || (|last.events| == 1 && Terminal(last.events[0]))
    ensures Claude(process, resume, toInt) == After(Yielded(Readings(process.lines)[..LinesRead(process.lines)]), last)
  {
    var lines, k := process.lines, FirstNotProceeding(process.lines);
    if k < |lines| {
      ClaudeStops(process, resume, toInt, k);
      YieldedSnoc(Readings(lines), k);
      var session, text := LastInit(lines[..k], resume), LastAssistantText(lines[..k], Str(""));
      HaltFacts(lines[k], session, text, toInt);
      last := Halt(Read(lines[k]).stop, session, text, toInt);
    } else {
      ClaudeRunsOut(process, resume, toInt);
      assert Readings(lines)[..|lines|] == Readings(lines);
      CloseFacts(process.ending);
      last := Close(process.ending);
    }
  }

  /** The whole stream of a run: its events carry exactly what the lines say up to the one that
      stops it, in order, that line included up to its first bad block; the terminal comes after. */
  lemma ClaudeStreamSays(process: Process, resume: Json, toInt: ToInt)
    requires process.Spawned?
    ensures var events := Claude(process, resume, toInt).events;
      && ContentsOf(events) == Said(process.lines[..LinesRead(process.lines)])
      && forall i :: 0 <= i < |events| - 1 ==> OfLine(events[i])
  {
    var lines, n := process.lines, LinesRead(process.lines);
    var last := StreamSplits(process, resume, toInt);
    LinesSay(lines, n);
    LinesYield(lines, n);
    EndSays(Yielded(Readings(lines)[..n]), last);
  }

  /** What is wrong with the block that stops a line. */
  function BlockFault(content: seq<Json>): Reason {
    var n := GoodBlocks(content);
    if n < |content| && BlockTyped(content[n], "text") then Missing("text") else Missing("name")
  }

  /** What the error says of the line that stops a run, given the session known so far. */
  function Fault(l: Line, session: Json): Reason {
    if l.Malformed? then Unparsable
    else if Inits(l) then Missing("session_id")
    else if Typed(l, "assistant") then if HasBlocks(l) then BlockFault(BlocksOf(l)) else Missing("message.content")
    else if !Typed(l, "result") then Unparsable
    else if l.v.Get("is_error").Truthy() then
      ResultError(if "subtype" in l.v.fields then l.v.Get("subtype") else Str("unknown"))
    else if "result" !in l.v.fields then Missing("result")
    else if !l.v.Get("session_id").Truthy() then Missing("session_id")
    else SessionMismatch(l.v.Get("session_id"), session)
  }

  lemma StopSays(l: Line)
    requires !Proceeds(l) && !NotAnObject(l) && !Typed(l, "result")
    ensures Read(l).stop == Broken(Fault(l, Null))
  {
    if HasBlocks(l) {
      var content, n := BlocksOf(l), GoodBlocks(BlocksOf(l));
      forall i | 0 <= i < |content| ensures ReadBlocks(content)[i].stop == Go <==> BlockOk(content[i]) {
        BlockFacts(content[i], Null, Null);
      }
      ComposeIs(ReadBlocks(content), n);
    }
  }

  lemma StopNames(process: Process, resume: Json, toInt: ToInt)
    requires process.Spawned? && FirstNotProceeding(process.lines) < |process.lines|
    requires !Claude(process, resume, toInt).escapes && !Completes(Claude(process, resume, toInt))
    ensures var k := FirstNotProceeding(process.lines);
      Names(Claude(process, resume, toInt).events, Fault(process.lines[k], LastInit(process.lines[..k], resume)))
  {
    var lines, k := process.lines, FirstNotProceeding(process.lines);
    var session, text := LastInit(lines[..k], resume), LastAssistantText(lines[..k], Str(""));
    ClaudeStops(process, resume, toInt, k);
    var seen := Yielded(Readings(lines)[..k]) + Read(lines[k]).events;
    var last := Halt(Read(lines[k]).stop, session, text, toInt);
    HaltFacts(lines[k], session, text, toInt);
    ClosedAfter(seen, last);
    HaltNames(lines[k], session, text, toInt);
    LastOf(seen, last.events[0]);
  }

  lemma EndNames(seen: seq<AgentEvent>, ending: Ending)
    requires ending != OtherFault
    ensures Names(After(seen, Close(ending)).events, EndFault(ending))
  {
    LastOf(seen, Close(ending).events[0]);
  }

  /** What the error of a run that neither completes nor raises says: what is wrong with the line
      that stops it, else how the process ended. */
  lemma ClaudeErrorNames(process: Process, resume: Json, toInt: ToInt)
    requires process.Spawned?
    requires !Claude(process, resume, toInt).escapes && !Completes(Claude(process, resume, toInt))
    ensures var k := FirstNotProceeding(process.lines);
      Names(Claude(process, resume, toInt).events,
            if k < |process.lines| then Fault(process.lines[k], LastInit(process.lines[..k], resume))
            else EndFault(process.ending))
  {
    if FirstNotProceeding(process.lines) < |process.lines| {
      StopNames(process, resume, toInt);
    } else {
      ClaudeRunsOut(process, resume, toInt);
      EndNames(Yielded(Readings(process.lines)), process.ending);
    }
  }

  lemma HaltNames(l: Line, session: Json, text: Json, toInt: ToInt)
    requires !Proceeds(l)
    requires var h := Halt(Read(l).stop, session, text, toInt); !h.escapes && !Completes(h) && h.events != []
    ensures var e := Halt(Read(l).stop, session, text, toInt).events[0];
      e.error.Some? && e.error.value.reason == Fault(l, session)
  {
    ReadFacts(l);
    if !Typed(l, "result") {
      StopSays(l);
    }
  }
}
