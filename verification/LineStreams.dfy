/** What the two CLI normalisers share: each turns lines of output into events, one line at a
    time, until a line stops the run or the output ends. */
module LineStreams {
  import opened Runtime

  /** What a line does after the events it yields: nothing, a protocol error, an escaping
      exception, or the CLI's own final report. */
  datatype Stop = Go | Broken(reason: Reason) | Raises | Report(v: Json)

  datatype Reading = Reading(events: seq<AgentEvent>, stop: Stop)

  function Nothing(): Reading {
    Reading([], Go)
  }

  function Faulty(reason: Reason): Reading {
    Reading([], Broken(reason))
  }

  function Yields(e: AgentEvent): Reading {
    Reading([e], Go)
  }

  /** The events of a run of readings, in order. */
  function Yielded(rs: seq<Reading>): seq<AgentEvent> {
    if rs == [] then [] else Yielded(rs[..|rs| - 1]) + rs[|rs| - 1].events
  }

  /** The index of the first reading that stops the run, or their number if none does. */
  function FirstStop(rs: seq<Reading>): (k: nat)
    ensures k <= |rs|
    ensures k < |rs| ==> rs[k].stop != Go
    ensures forall i :: 0 <= i < k ==> rs[i].stop == Go
  {
    if rs == [] || rs[0].stop != Go then 0 else 1 + FirstStop(rs[1..])
  }

  /** The first stop is the only index with its property. */
  lemma FirstStopIs(rs: seq<Reading>, k: nat)
    requires k <= |rs|
    requires forall i :: 0 <= i < k ==> rs[i].stop == Go
    requires k < |rs| ==> rs[k].stop != Go
    ensures FirstStop(rs) == k
  {
  }

  /** Id of the thread started last, `initial` if none was. */
  function LastThread(events: seq<AgentEvent>, initial: Json): Json {
    if events == [] then initial
    else if events[|events| - 1].kind == ThreadStarted then events[|events| - 1].thread
    else LastThread(events[..|events| - 1], initial)
  }

  /** Text of the last completed message, `initial` if there is none. */
  function LastText(events: seq<AgentEvent>, initial: Json): Json {
    if events == [] then initial
    else if events[|events| - 1].kind == MessageCompleted then events[|events| - 1].text
    else LastText(events[..|events| - 1], initial)
  }

  lemma {:induction false} LastAfter(events: seq<AgentEvent>, y: seq<AgentEvent>, thread: Json, text: Json)
    ensures LastThread(events + y, thread) == LastThread(y, LastThread(events, thread))
    ensures LastText(events + y, text) == LastText(y, LastText(events, text))
  {
    if y == [] {
      assert events + y == events;
    } else {
      var front := y[..|y| - 1];
      assert (events + y)[..|events + y| - 1] == events + front;
      LastAfter(events, front, thread, text);
    }
  }

  lemma LastOfOne(e: AgentEvent, thread: Json, text: Json)
    ensures LastThread([e], thread) == if e.kind == ThreadStarted then e.thread else thread
    ensures LastText([e], text) == if e.kind == MessageCompleted then e.text else text
  {
    assert [e][..0] == [];
  }

  lemma YieldedSnoc(rs: seq<Reading>, i: nat)
    requires i < |rs|
    ensures Yielded(rs[..i + 1]) == Yielded(rs[..i]) + rs[i].events
  {
    assert rs[..i + 1][..i] == rs[..i];
  }

  /** Where a read loop stands after `i` readings, none of which stopped it. */
  ghost predicate AtLine(rs: seq<Reading>, i: nat, thread0: Json, text0: Json,
                         events: seq<AgentEvent>, thread: Json, text: Json) {
    && i <= |rs|
    && (forall j :: 0 <= j < i ==> rs[j].stop == Go)
    && events == Yielded(rs[..i])
    && thread == LastThread(events, thread0)
    && text == LastText(events, text0)
  }

  lemma Advance(rs: seq<Reading>, i: nat, thread0: Json, text0: Json,
                events: seq<AgentEvent>, thread: Json, text: Json)
    requires AtLine(rs, i, thread0, text0, events, thread, text)
    requires i < |rs| && rs[i].stop == Go
    ensures AtLine(rs, i + 1, thread0, text0, events + rs[i].events,
                   LastThread(rs[i].events, thread), LastText(rs[i].events, text))
  {
    YieldedSnoc(rs, i);
    LastAfter(events, rs[i].events, thread0, text0);
  }

  /** A line made of parts: the events of the parts up to the first that stops, and that stop. */
  function Compose(rs: seq<Reading>): Reading {
    var k := FirstStop(rs);
    Reading(Yielded(rs[..k]), if k < |rs| then rs[k].stop else Go)
  }

  lemma ComposeIs(rs: seq<Reading>, k: nat)
    requires k <= |rs| && (forall i :: 0 <= i < k ==> rs[i].stop == Go) && (k < |rs| ==> rs[k].stop != Go)
    ensures Compose(rs) == Reading(Yielded(rs[..k]), if k < |rs| then rs[k].stop else Go)
  {
    FirstStopIs(rs, k);
  }

  ghost predicate NoTerminal(events: seq<AgentEvent>) {
    forall e :: e in events ==> !Terminal(e)
  }

  lemma {:induction false} YieldedNoTerminal(rs: seq<Reading>)
    requires forall r :: r in rs ==> NoTerminal(r.events)
    ensures NoTerminal(Yielded(rs))
  {
    if rs != [] {
      YieldedNoTerminal(rs[..|rs| - 1]);
    }
  }

  /** Events without a terminal, then one well-formed terminal, make a valid stream. */
  lemma ValidWhenClosed(events: seq<AgentEvent>, last: AgentEvent)
    requires NoTerminal(events)
    requires ValidStream([last])
    ensures ValidStream(events + [last])
  {
    forall i | 0 <= i < |events| ensures !Terminal((events + [last])[i]) {
      assert events[i] in events;
    }
    assert [last][0] == last;
  }
}
