/** The claude CLI normaliser (adapters/backends/claude/backend.py). `toInt` stands for Python's
    `int()` on a value other than None: None when the conversion raises. */
module ClaudeBackend {
  import opened Wrappers
  import opened Runtime
  import opened LineStreams

  type ToInt = Json -> Option<int>

  /** What one content block of an assistant message says. */
  function ReadBlock(b: Json): Reading {
    if !b.Obj? then Nothing()
    else if b.Get("type") == Str("text") then
      if "text" in b.fields
      then Yields(Message(if b.Get("text").Truthy() then b.Get("text") else Str("")))
      else Faulty(Missing("text"))
    else if b.Get("type") == Str("tool_use") then
      if b.Get("name").Truthy()
      then Yields(ToolDone(ToolEvent(b.Get("name"), b.Get("input"), Null)))
      else Faulty(Missing("name"))
    else Nothing()
  }

  function ReadBlocks(content: seq<Json>): (rs: seq<Reading>)
    ensures |rs| == |content|
    ensures forall i :: 0 <= i < |rs| ==> rs[i] == ReadBlock(content[i])
  {
    seq(|content|, i requires 0 <= i < |content| => ReadBlock(content[i]))
  }

  /** `message.get("content") if isinstance(message, dict) else None`. */
  function Content(v: Json): Json
    requires v.Obj?
  {
    if v.Get("message").Obj? then v.Get("message").Get("content") else Null
  }

  predicate IsInit(v: Json)
    requires v.Obj?
  {
    v.Get("type") == Str("system") && v.Get("subtype") == Str("init")
  }

  /** What one line of claude output says. */
  function Read(l: Line): Reading {
    match l
    case Blank => Nothing()
    case Malformed => Faulty(Unparsable)
    case Parsed(v) => if v.Obj? then ReadObject(v) else Reading([], Raises)
  }

  function ReadObject(v: Json): Reading
    requires v.Obj?
  {
    if IsInit(v) then
      if v.Get("session_id").Truthy() then Yields(Started(v.Get("session_id")))
      else Faulty(Missing("session_id"))
    else if v.Get("type") == Str("assistant") then
      if Content(v).List? then Compose(ReadBlocks(Content(v).items))
      else Faulty(Missing("message.content"))
    else if v.Get("type") == Str("result") then Reading([], Report(v))
    else Nothing()
  }

  function Readings(lines: seq<Line>): (rs: seq<Reading>)
    ensures |rs| == |lines|
    ensures forall i :: 0 <= i < |rs| ==> rs[i] == Read(lines[i])
  {
    seq(|lines|, i requires 0 <= i < |lines| => Read(lines[i]))
  }

  /** `int(usage.get(k, 0) or 0)` */
  function Tokens(usage: Json, k: string, toInt: ToInt): Option<int>
    requires usage.Obj?
  {
    if usage.Get(k).Truthy() then toInt(usage.Get(k)) else Some(0)
  }

  /** `evt.get("usage") or {}` converted to token counts; None when the conversion raises. */
  function Usage(v: Json, toInt: ToInt): Option<TokenUsage>
    requires v.Obj?
  {
    var usage := if v.Get("usage").Truthy() then v.Get("usage") else Obj(map[]);
    if !usage.Obj? then None
    else
      var a, b := Tokens(usage, "input_tokens", toInt), Tokens(usage, "output_tokens", toInt);
      if a.Some? && b.Some? then Some(TokenUsage(a.value, b.value)) else None
  }

  /** The verdict on a `result` line, given the session and text known so far. */
  function Settle(v: Json, session: Json, text: Json, toInt: ToInt): Stream
    requires v.Obj?
  {
    if v.Get("is_error").Truthy() then
      Only(Failed(BackendCrash, ResultError(if "subtype" in v.fields then v.Get("subtype") else Str("unknown"))))
    else if "result" !in v.fields then Only(Failed(Protocol, Missing("result")))
    else if !v.Get("session_id").Truthy() then Only(Failed(Protocol, Missing("session_id")))
    else if session != Null && v.Get("session_id") != session then
      Only(Failed(Protocol, SessionMismatch(v.Get("session_id"), session)))
    else if Usage(v, toInt).None? then Stream([], true)
    else
      Only(Completed(RunResult(v.Get("session_id"),
                               if v.Get("result").Truthy() then v.Get("result") else text,
                               Usage(v, toInt).value)))
  }

  function Close(ending: Ending): Stream {
    match ending
    case TimedOut => Only(Failed(Timeout, ReadTimeout))
    case OsFault => Only(Failed(BackendCrash, SubprocessFault))
    case OtherFault => Stream([], true)
    case Exit(code) =>
      Only(if code != 0 then Failed(BackendCrash, Exited(code)) else Failed(Protocol, NoResult))
  }

  function Halt(stop: Stop, session: Json, text: Json, toInt: ToInt): Stream {
    match stop
    case Broken(reason) => Only(Failed(Protocol, reason))
    case Report(v) => if v.Obj? then Settle(v, session, text, toInt) else Stream([], true)
    case _ => Stream([], true)
  }

  /** The stream of a run, in closed form: the events of the lines before the first one that
      stops, the events of that line itself, then its verdict or the verdict of the ending. */
  function Claude(process: Process, resume: Json, toInt: ToInt): Stream {
    if process.SpawnFault? then Stream([], true)
    else
      var rs := Readings(process.lines);
      var k := FirstStop(rs);
      var seen := Yielded(rs[..k]);
      if k < |rs| then
        After(seen + rs[k].events,
              Halt(rs[k].stop, LastThread(seen, resume), LastText(seen, Str("")), toInt))
      else After(seen, Close(process.ending))
  }

  lemma StopsHere(process: Process, resume: Json, toInt: ToInt, i: nat,
                  events: seq<AgentEvent>, session: Json, text: Json)
    requires process.Spawned? && i < |process.lines| && Read(process.lines[i]).stop != Go
    requires AtLine(Readings(process.lines), i, resume, Str(""), events, session, text)
    ensures Claude(process, resume, toInt) ==
            After(events + Read(process.lines[i]).events, Halt(Read(process.lines[i]).stop, session, text, toInt))
  {
    FirstStopIs(Readings(process.lines), i);
  }

  lemma RunsOut(process: Process, resume: Json, toInt: ToInt,
                events: seq<AgentEvent>, session: Json, text: Json)
    requires process.Spawned?
    requires AtLine(Readings(process.lines), |process.lines|, resume, Str(""), events, session, text)
    ensures Claude(process, resume, toInt) == After(events, Close(process.ending))
  {
    FirstStopIs(Readings(process.lines), |process.lines|);
  }

  lemma BlockKeepsThread(b: Json, thread: Json)
    ensures LastThread(ReadBlock(b).events, thread) == thread
  {
  }

  lemma NextBlock(content: seq<Json>, i: nat, session: Json, finalText: Json, y: seq<AgentEvent>, text: Json)
    requires i < |content| && ReadBlock(content[i]).stop == Go
    requires AtLine(ReadBlocks(content), i, session, finalText, y, session, text)
    ensures var e := ReadBlock(content[i]).events;
      AtLine(ReadBlocks(content), i + 1, session, finalText, y + e, session, LastText(e, text))
  {
    BlockKeepsThread(content[i], session);
    Advance(ReadBlocks(content), i, session, finalText, y, session, text);
  }

  /** One block of the inner loop. */
  method EmitBlock(b: Json, finalText: Json) returns (y: seq<AgentEvent>, stop: Stop, finalText': Json)
    ensures y == ReadBlock(b).events && stop == ReadBlock(b).stop
    ensures finalText' == LastText(y, finalText)
  {
    y, stop, finalText' := [], Go, finalText;
    if !b.Obj? {
      return;
    }
    var btype := b.Get("type");
    if btype == Str("text") {
      if "text" !in b.fields {
        stop := Broken(Missing("text"));
        return;
      }
      finalText' := if b.Get("text").Truthy() then b.Get("text") else Str("");
      y := [Message(finalText')];
    } else if btype == Str("tool_use") {
      var name := b.Get("name");
      if !name.Truthy() {
        stop := Broken(Missing("name"));
        return;
      }
      y := [ToolDone(ToolEvent(name, b.Get("input"), Null))];
    }
  }

  /** The inner loop over the content blocks of one assistant message. */
  method EmitBlocks(content: seq<Json>, session: Json, finalText: Json)
    returns (y: seq<AgentEvent>, stop: Stop, finalText': Json)
    ensures y == Compose(ReadBlocks(content)).events
    ensures stop == Compose(ReadBlocks(content)).stop
    ensures session == LastThread(y, session)
    ensures finalText' == LastText(y, finalText)
  {
    ghost var rs := ReadBlocks(content);
    y, stop, finalText' := [], Go, finalText;
    for i := 0 to |content|
      invariant stop == Go
      invariant AtLine(rs, i, session, finalText, y, session, finalText')
    {
      var e, s, t := EmitBlock(content[i], finalText');
      if s != Go {
        ComposeIs(rs, i);
        stop := s;
        return;
      }
      NextBlock(content, i, session, finalText, y, finalText');
      y, finalText' := y + e, t;
    }
    ComposeIs(rs, |rs|);
  }

  /** The part of an iteration that looks at a parsed object. */
  method ReadEvent(evt: Json, session: Json, finalText: Json)
    returns (y: seq<AgentEvent>, stop: Stop, session': Json, finalText': Json)
    requires evt.Obj?
    ensures y == ReadObject(evt).events && stop == ReadObject(evt).stop
    ensures session' == LastThread(y, session)
    ensures finalText' == LastText(y, finalText)
  {
    y, stop, session', finalText' := [], Go, session, finalText;
    var etype := evt.Get("type");
    if etype == Str("system") && evt.Get("subtype") == Str("init") {
      var sid := evt.Get("session_id");
      if !sid.Truthy() {
        stop := Broken(Missing("session_id"));
        return;
      }
      session' := sid;
      y := [Started(session')];
      LastOfOne(y[0], session, finalText);
    } else if etype == Str("assistant") {
      var message := evt.Get("message");
      var content := if message.Obj? then message.Get("content") else Null;
      if !content.List? {
        stop := Broken(Missing("message.content"));
        return;
      }
      y, stop, finalText' := EmitBlocks(content.items, session, finalText);
    } else if etype == Str("result") {
      stop := Report(evt);
    }
  }

  /** One iteration of the read loop, up to where a `result` line takes over. */
  method ReadLine(l: Line, session: Json, finalText: Json)
    returns (y: seq<AgentEvent>, stop: Stop, session': Json, finalText': Json)
    ensures y == Read(l).events && stop == Read(l).stop
    ensures session' == LastThread(y, session)
    ensures finalText' == LastText(y, finalText)
  {
    y, stop, session', finalText' := [], Go, session, finalText;
    if l.Blank? {
      return;
    }
    if l.Malformed? {
      stop := Broken(Unparsable);
      return;
    }
    if !l.v.Obj? {
      stop := Raises;
      return;
    }
    y, stop, session', finalText' := ReadEvent(l.v, session, finalText);
  }

  lemma ReportIsObject(l: Line)
    requires Read(l).stop.Report?
    ensures Read(l).stop.v.Obj?
  {
  }

  /** The `result` branch. */
  method Finish(evt: Json, session: Json, finalText: Json, toInt: ToInt) returns (out: Stream)
    requires evt.Obj?
    ensures out == Settle(evt, session, finalText, toInt)
  {
    if evt.Get("is_error").Truthy() {
      var subtype := if "subtype" in evt.fields then evt.Get("subtype") else Str("unknown");
      return Only(Failed(BackendCrash, ResultError(subtype)));
    }
    if "result" !in evt.fields {
      return Only(Failed(Protocol, Missing("result")));
    }
    var rsid := evt.Get("session_id");
    if !rsid.Truthy() {
      return Only(Failed(Protocol, Missing("session_id")));
    }
    if session != Null && rsid != session {
      return Only(Failed(Protocol, SessionMismatch(rsid, session)));
    }
    var text := if evt.Get("result").Truthy() then evt.Get("result") else finalText;
    var usage := if evt.Get("usage").Truthy() then evt.Get("usage") else Obj(map[]);
    if !usage.Obj? {
      return Stream([], true);
    }
    var a := Tokens(usage, "input_tokens", toInt);
    var b := Tokens(usage, "output_tokens", toInt);
    if a.None? || b.None? {
      return Stream([], true);
    }
    out := Only(Completed(RunResult(rsid, text, TokenUsage(a.value, b.value))));
  }

  /** `ClaudeCodeBackend.run`: `events` collects what the generator yields. */
  method Run(resume: Json, process: Process, toInt: ToInt) returns (out: Stream)
    ensures out == Claude(process, resume, toInt)
  {
    if process.SpawnFault? {
      return Stream([], true);
    }
    ghost var rs := Readings(process.lines);
    var events: seq<AgentEvent> := [];
    var session, finalText := resume, Str("");
    for i := 0 to |process.lines|
      invariant AtLine(rs, i, resume, Str(""), events, session, finalText)
    {
      var y, stop, session', finalText' := ReadLine(process.lines[i], session, finalText);
      if stop != Go {
        StopsHere(process, resume, toInt, i, events, session, finalText);
        var last := Stream([], true);
        if stop.Broken? {
          last := Only(Failed(Protocol, stop.reason));
        } else if stop.Report? {
          ReportIsObject(process.lines[i]);
          last := Finish(stop.v, session, finalText, toInt);
        }
        return After(events + y, last);
      }
      Advance(rs, i, resume, Str(""), events, session, finalText);
      events, session, finalText := events + y, session', finalText';
    }
    RunsOut(process, resume, toInt, events, session, finalText);
    match process.ending {
      case TimedOut => out := After(events, Only(Failed(Timeout, ReadTimeout)));
      case OsFault => out := After(events, Only(Failed(BackendCrash, SubprocessFault)));
      case OtherFault => out := After(events, Stream([], true));
      case Exit(code) =>
        if code != 0 {
          out := After(events, Only(Failed(BackendCrash, Exited(code))));
        } else {
          out := After(events, Only(Failed(Protocol, NoResult)));
        }
    }
  }
}
