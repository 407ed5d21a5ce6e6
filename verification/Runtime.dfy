/** The agent runtime contract: events, results, errors, and what a valid event stream is.

    Values that reach the engine from a CLI are parsed JSON. They are modelled as the Python
    objects the parser returns: `null` is None, and booleans are the numbers 0 and 1, to which
    Python's `False` and `True` are equal. */
module Runtime {
  import opened Wrappers

  datatype Json =
    | Null
    | Num(n: real)
    | Str(s: string)
    | List(items: seq<Json>)
    | Obj(fields: map<string, Json>)
  {
    /** Python truth value. */
    predicate Truthy() {
      match this
      case Null => false
      case Num(n) => n != 0.0
      case Str(s) => s != ""
      case List(items) => items != []
      case Obj(fields) => fields != map[]
    }

    /** `self.get(k)` on a dict. */
    function Get(k: string): Json
      requires Obj?
    {
      if k in fields then fields[k] else Null
    }
  }

  datatype ErrorKind = Timeout | BackendCrash | Protocol

  /** The reason carried by an error; the source formats these as text. */
  datatype Reason =
    | Unparsable
    | Missing(what: string)
    | Exited(code: int)
    | ReadTimeout
    | SubprocessFault
    | ResultError(subtype: Json)
    | SessionMismatch(got: Json, expected: Json)
    | NoResult

  datatype AgentError = AgentError(kind: ErrorKind, reason: Reason, retriable: bool)

  datatype TokenUsage = TokenUsage(inputTokens: int, outputTokens: int)

  datatype RunResult = RunResult(thread: Json, finalText: Json, usage: TokenUsage)

  datatype ToolEvent = ToolEvent(name: Json, input: Json, output: Json)

  datatype EventKind =
    | ThreadStarted
    | MessageDelta
    | MessageCompleted
    | ToolCallStarted
    | ToolCallCompleted
    | TurnCompleted
    | Error

  datatype AgentEvent = AgentEvent(
    kind: EventKind,
    thread: Json,
    text: Json,
    tool: Option<ToolEvent>,
    result: Option<RunResult>,
    error: Option<AgentError>)

  function Started(thread: Json): AgentEvent {
    AgentEvent(ThreadStarted, thread, Null, None, None, None)
  }

  function Message(text: Json): AgentEvent {
    AgentEvent(MessageCompleted, Null, text, None, None, None)
  }

  function ToolDone(tool: ToolEvent): AgentEvent {
    AgentEvent(ToolCallCompleted, Null, Null, Some(tool), None, None)
  }

  function Completed(result: RunResult): AgentEvent {
    AgentEvent(TurnCompleted, result.thread, Null, None, Some(result), None)
  }

  function Failed(kind: ErrorKind, reason: Reason): AgentEvent {
    AgentEvent(Error, Null, Null, None, None, Some(AgentError(kind, reason, kind == Timeout)))
  }

  predicate Terminal(e: AgentEvent) {
    e.kind in {TurnCompleted, Error}
  }

  /** The shared contract on event streams: exactly one terminal event, in last position,
      carrying the payload of its kind and not the other one. */
  ghost predicate ValidStream(events: seq<AgentEvent>) {
    && |events| > 0
    && (forall i :: 0 <= i < |events| - 1 ==> !Terminal(events[i]))
    && var last := events[|events| - 1];
      || (last.kind == TurnCompleted && last.result.Some? && last.error.None?)
      || (last.kind == Error && last.error.Some? && last.result.None?)
  }

  /** What a generator hands its consumer: the events it yields, and whether it then ends
      normally or lets an exception escape. */
  datatype Stream = Stream(events: seq<AgentEvent>, escapes: bool)

  /** One line of a CLI's standard output. */
  datatype Line = Blank | Malformed | Parsed(v: Json)

  /** How reading the output ends, if every line is consumed: the exit code, a read timeout, an
      OS or subprocess error, or an exception of any other class. */
  datatype Ending = Exit(code: int) | TimedOut | OsFault | OtherFault

  /** What spawning the CLI gives: an exception, or lines followed by an ending. */
  datatype Process = SpawnFault | Spawned(lines: seq<Line>, ending: Ending)

  /** Put events already yielded in front of the rest of a stream. */
  function After(events: seq<AgentEvent>, rest: Stream): Stream {
    Stream(events + rest.events, rest.escapes)
  }

  function Only(e: AgentEvent): Stream {
    Stream([e], false)
  }
}
