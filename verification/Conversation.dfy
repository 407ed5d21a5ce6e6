/** The stateful conversation loop over one store, one call after another
    (engine/orchestration/conversation.py). */
module Conversation {
  import opened Wrappers
  import opened Runtime
  import opened Tracing
  import opened Engine
  import opened Sessions
  import opened MemoryStore

  /** The arguments of `handle`. */
  datatype Call = Call(
    key: Key,
    text: string,
    cwd: string,
    env: map<string, string>,
    backend: string,
    maxRounds: int,
    message: Option<string>,
    user: Option<string>,
    traceMetadata: map<string, string>)

  /** What the outside contributes to one call: the uuid drawn if a session is created, the
      backend's capabilities, None if it is not registered, and its event stream, and the clock. */
  datatype World = World(newId: string, caps: Option<Capabilities>, stream: Stream, now: real)

  datatype Result =
    | Replied(result: RunResult)
    | DuplicateMessage
    | RoundsExceeded
    | TurnFailed(outcome: Outcome)

  /** What a call leaves behind: the store, its result, and, if a turn was attempted, the request
      sent and the trace recorded. */
  datatype Handled = Handled(mem: Memory, result: Result, request: Option<Request>, trace: Option<Trace>)

  function DimsOf(call: Call, s: Session): Dims {
    Dims(call.key.workspace, call.user, s.id, s.backend)
  }

  /** What the session's backend should run. */
  function Wanted(call: Call, s: Session): Request {
    Request(s.backend, call.text, call.cwd, call.env, s.thread, DimsOf(call, s))
  }

  function RequestOf(call: Call, s: Session, caps: Capabilities): Request {
    if caps.resume then Wanted(call, s) else Wanted(call, s).(thread := Null)
  }

  function SessionOf(m: Memory, call: Call, newId: string): Session
    requires m.Indexed()
  {
    Step(m, GetOrCreate(call.key, call.backend, call.maxRounds, newId)).1.session
  }

  function Opened(m: Memory, call: Call, newId: string): (m': Memory)
    requires m.Indexed()
    ensures m'.Indexed()
  {
    Step(m, GetOrCreate(call.key, call.backend, call.maxRounds, newId)).0
  }

  /** A successful turn is saved, then its message marked. */
  function Recorded(m: Memory, call: Call, s: Session, result: RunResult, now: real): (m': Memory)
    requires m.Indexed()
    ensures m'.Indexed()
  {
    var saved := Step(m, Save(s.WithTurn(result.thread, now))).0;
    if call.message.Some? then Step(saved, MarkProcessed(s.id, call.message.value)).0 else saved
  }

  function Handle(m: Memory, call: Call, w: World): (h: Handled)
    requires m.Indexed()
    ensures h.mem.Indexed()
  {
    var s := SessionOf(m, call, w.newId);
    var m1 := Opened(m, call, w.newId);
    if call.message.Some? && (s.id, call.message.value) in m1.processed then Handled(m1, DuplicateMessage, None, None)
    else if s.rounds >= s.maxRounds then Handled(m1, RoundsExceeded, None, None)
    else if w.caps.None? then Handled(m1, TurnFailed(UnknownBackend), None, None)
    else
      var turn := TurnOf(w.stream, w.caps.value.streaming, None);
      var request := Some(RequestOf(call, s, w.caps.value));
      var trace := Some(TraceOf(DimsOf(call, s), call.text, call.traceMetadata, turn));
      if turn.outcome.Returned?
      then Handled(Recorded(m1, call, s, turn.outcome.result, w.now), Replied(turn.outcome.result), request, trace)
      else Handled(m1, TurnFailed(turn.outcome), request, trace)
  }

  class ConversationService {
    const store: MemorySessionStore
    const tracer: MemoryTracer

    constructor (store: MemorySessionStore, tracer: MemoryTracer)
      ensures this.store == store && this.tracer == tracer
    {
      this.store, this.tracer := store, tracer;
    }

    method HandleCall(call: Call, w: World) returns (result: Result, request: Option<Request>)
      requires store.Value().Indexed()
      modifies store, tracer
      ensures var h := Handle(old(store.Value()), call, w);
        && store.Value() == h.mem && result == h.result && request == h.request
        && (h.trace.None? ==> tracer.traces == old(tracer.traces))
        && (h.trace.Some? ==> |tracer.traces| == |old(tracer.traces)| + 1 && old(tracer.traces) <= tracer.traces &&
                              tracer.traces[|old(tracer.traces)|].View() == h.trace.value)
    {
      request := None;
      var session := store.GetOrCreate(call.key, call.backend, call.maxRounds, w.newId);
      if call.message.Some? {
        var dup := store.IsProcessed(session.id, call.message.value);
        if dup {
          return DuplicateMessage, None;
        }
      }
      if session.rounds >= session.maxRounds {
        return RoundsExceeded, None;
      }
      var outcome, _, sent := RunTurn(tracer, Wanted(call, session), call.traceMetadata, w.caps, w.stream, None);
      request := sent;
      if !outcome.Returned? {
        return TurnFailed(outcome), request;
      }
      store.Save(session.WithTurn(outcome.result.thread, w.now));
      if call.message.Some? {
        store.MarkProcessed(session.id, call.message.value);
      }
      result := Replied(outcome.result);
    }
  }
}
