/** The in-memory tracer (engine/observability/memory.py). */
module Tracing {
  import opened Wrappers
  import opened Runtime

  datatype Dims = Dims(workspace: string, user: Option<string>, session: string, backend: string)

  /** Why a span closed with an error; the source formats these as text. */
  datatype SpanError =
    | ErrorEvent(error: AgentError)
    | NoTerminalEvent
    | Uncaught

  /** The value of a trace record: everything a tracer gets to see of one turn. */
  datatype Trace = Trace(
    dims: Dims,
    input: string,
    metadata: map<string, string>,
    tools: seq<ToolEvent>,
    output: Json,
    error: Option<SpanError>,
    finished: bool)

  class TraceRecord {
    const dims: Dims
    const input: string
    const metadata: map<string, string>
    var tools: seq<ToolEvent>
    var output: Json
    var error: Option<SpanError>
    var finished: bool
    ghost var finishes: nat  // how often a call of `finish` took effect

    constructor (dims: Dims, input: string, metadata: map<string, string>)
      ensures View() == Trace(dims, input, metadata, [], Null, None, false)
      ensures finishes == 0
    {
      this.dims, this.input, this.metadata := dims, input, metadata;
      tools, output, error, finished, finishes := [], Null, None, false, 0;
    }

    function View(): Trace
      reads this
    {
      Trace(dims, input, metadata, tools, output, error, finished)
    }
  }

  class MemorySpan {
    const record: TraceRecord

    constructor (record: TraceRecord)
      ensures this.record == record
    {
      this.record := record;
    }

    method RecordTool(tool: ToolEvent)
      modifies record
      ensures record.View() == old(record.View()).(tools := old(record.tools) + [tool])
      ensures record.finishes == old(record.finishes)
    {
      record.tools := record.tools + [tool];
    }

    /** Only the first call of `finish` takes effect. */
    method Finish(output: Json, error: Option<SpanError>)
      modifies record
      ensures record.View() ==
              if old(record.finished) then old(record.View())
              else old(record.View()).(output := output, error := error, finished := true)
      ensures record.finishes == old(record.finishes) + if old(record.finished) then 0 else 1
    {
      if record.finished {
        return;
      }
      record.output := output;
      record.error := error;
      record.finished := true;
      record.finishes := record.finishes + 1;
    }

    /** `__exit__`: closes a span its body left open. */
    method Exit(error: Option<SpanError>)
      modifies record
      ensures record.View() ==
              if old(record.finished) then old(record.View())
              else old(record.View()).(output := Null, error := error, finished := true)
      ensures record.finishes == old(record.finishes) + if old(record.finished) then 0 else 1
    {
      if !record.finished {
        Finish(Null, error);
      }
    }
  }

  class MemoryTracer {
    var traces: seq<TraceRecord>

    constructor ()
      ensures traces == []
    {
      traces := [];
    }

    method StartTrace(dims: Dims, input: string, metadata: map<string, string>) returns (span: MemorySpan)
      modifies this
      ensures fresh(span) && fresh(span.record)
      ensures traces == old(traces) + [span.record]
      ensures span.record.View() == Trace(dims, input, metadata, [], Null, None, false)
      ensures span.record.finishes == 0
    {
      var record := new TraceRecord(dims, input, metadata);
      traces := traces + [record];
      span := new MemorySpan(record);
    }
  }
}
