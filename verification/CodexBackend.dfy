/** The codex CLI normaliser (adapters/backends/codex/backend.py). */
module CodexBackend {
  import opened Runtime
  import opened LineStreams

  /** What one line of codex output says. */
  function Read(l: Line): Reading {
    match l
    case Blank => Nothing()
    case Malformed => Faulty(Unparsable)
    case Parsed(v) =>
      if !v.Obj? then Reading([], Raises)
      else if v.Get("type") == Str("thread.started") then
        if v.Get("thread_id").Truthy() then Yields(Started(v.Get("thread_id")))
        else Faulty(Missing("thread_id"))
      else if v.Get("type") == Str("item.completed") then ReadItem(v.Get("item"))
      else Nothing()
  }

  function ReadItem(item: Json): Reading {
    if !item.Obj? || !item.Get("type").Truthy() then Faulty(Missing("item.type"))
    else if item.Get("type") == Str("tool_call") then
      if item.Get("name").Truthy()
      then Yields(ToolDone(ToolEvent(item.Get("name"), item.Get("input"), item.Get("output"))))
      else Faulty(Missing("name"))
    else if item.Get("type") == Str("agent_message") then
      if "text" in item.fields
      then Yields(Message(if item.Get("text").Truthy() then item.Get("text") else Str("")))
      else Faulty(Missing("text"))
    else Nothing()
  }

  function Readings(lines: seq<Line>): (rs: seq<Reading>)
    ensures |rs| == |lines|
    ensures forall i :: 0 <= i < |rs| ==> rs[i] == Read(lines[i])
  {
    seq(|lines|, i requires 0 <= i < |lines| => Read(lines[i]))
  }

  /** The stream of a run, in closed form: the events of the lines before the first one that
      stops, then the verdict of that line or of the ending. */
  function Codex(process: Process, resume: Json): Stream {
    if process.SpawnFault? then Stream([], true)
    else
      var rs := Readings(process.lines);
      var k := FirstStop(rs);
      var seen := Yielded(rs[..k]);
      if k < |rs| then After(seen + rs[k].events, Halt(rs[k].stop))
      else After(seen, Close(process.ending, LastThread(seen, resume), LastText(seen, Str(""))))
  }

  function Halt(stop: Stop): Stream {
    if stop.Broken? then Only(Failed(Protocol, stop.reason)) else Stream([], true)
  }

  function Close(ending: Ending, thread: Json, text: Json): Stream {
    match ending
    case TimedOut => Only(Failed(Timeout, ReadTimeout))
    case OsFault => Only(Failed(BackendCrash, SubprocessFault))
    case OtherFault => Stream([], true)
    case Exit(code) =>
      if code != 0 then Only(Failed(BackendCrash, Exited(code)))
      else Only(Completed(RunResult(thread, text, TokenUsage(0, 0))))
  }

  /** One iteration of the read loop: what it yields, whether the generator stops there, and the
      loop's two variables afterwards. */
  method ReadLine(l: Line, thread: Json, finalText: Json)
    returns (y: seq<AgentEvent>, stop: Stop, thread': Json, finalText': Json)
    ensures y == Read(l).events && stop == Read(l).stop
    ensures thread' == LastThread(y, thread)
    ensures finalText' == LastText(y, finalText)
  {
    y, stop, thread', finalText' := [], Go, thread, finalText;
    if l.Blank? {
      return;
    }
    if l.Malformed? {
      stop := Broken(Unparsable);
      return;
    }
    var evt := l.v;
    if !evt.Obj? {
      stop := Raises;
      return;
    }
    var etype := evt.Get("type");
    if etype == Str("thread.started") {
      var tid := evt.Get("thread_id");
      if !tid.Truthy() {
        stop := Broken(Missing("thread_id"));
        return;
      }
      thread' := tid;
      y := [Started(thread')];
      LastOfOne(y[0], thread, finalText);
    } else if etype == Str("item.completed") {
      var item := evt.Get("item");
      y, stop, finalText' := ReadItemOf(item, thread, finalText);
    }
  }

  /** The part of an iteration that looks at a completed item. */
  method ReadItemOf(item: Json, thread: Json, finalText: Json)
    returns (y: seq<AgentEvent>, stop: Stop, finalText': Json)
    ensures y == ReadItem(item).events && stop == ReadItem(item).stop
    ensures thread == LastThread(y, thread)
    ensures finalText' == LastText(y, finalText)
  {
    y, stop, finalText' := [], Go, finalText;
    if !item.Obj? || !item.Get("type").Truthy() {
      stop := Broken(Missing("item.type"));
      return;
    }
    var itype := item.Get("type");
    if itype == Str("tool_call") {
      var name := item.Get("name");
      if !name.Truthy() {
        stop := Broken(Missing("name"));
        return;
      }
      y := [ToolDone(ToolEvent(name, item.Get("input"), item.Get("output")))];
      LastOfOne(y[0], thread, finalText);
    } else if itype == Str("agent_message") {
      if "text" !in item.fields {
        stop := Broken(Missing("text"));
        return;
      }
      finalText' := if item.Get("text").Truthy() then item.Get("text") else Str("");
      y := [Message(finalText')];
      LastOfOne(y[0], thread, finalText);
    }
  }

  /** `CodexCliBackend.run`: `events` collects what the generator yields. */
  method Run(resume: Json, process: Process) returns (out: Stream)
    ensures out == Codex(process, resume)
  {
    if process.SpawnFault? {
      return Stream([], true);
    }
    ghost var rs := Readings(process.lines);
    var events: seq<AgentEvent> := [];
    var thread, finalText := resume, Str("");
    for i := 0 to |process.lines|
      invariant AtLine(rs, i, resume, Str(""), events, thread, finalText)
    {
      var y, stop, thread', finalText' := ReadLine(process.lines[i], thread, finalText);
      if stop != Go {
        FirstStopIs(rs, i);
        return After(events + y, if stop.Broken? then Only(Failed(Protocol, stop.reason)) else Stream([], true));
      }
      Advance(rs, i, resume, Str(""), events, thread, finalText);
      events, thread, finalText := events + y, thread', finalText';
    }
    FirstStopIs(rs, |rs|);
    match process.ending {
      case TimedOut => events := events + [Failed(Timeout, ReadTimeout)];
      case OsFault => events := events + [Failed(BackendCrash, SubprocessFault)];
      case OtherFault => return Stream(events, true);
      case Exit(code) =>
        if code != 0 {
          events := events + [Failed(BackendCrash, Exited(code))];
        } else {
          events := events + [Completed(RunResult(thread, finalText, TokenUsage(0, 0)))];
        }
    }
    out := Stream(events, false);
  }
}
