/** From a workspace message to a conversation call (engine/orchestration/workspace_gateway.py),
    and why secrets do not reach the trace. */
module Gateway {
  import opened Wrappers
  import opened Tracing
  import opened Engine
  import opened Sessions
  import opened MemoryStore
  import opened Names
  import opened Workspace
  import opened Conversation

  const DEFAULT_MAX_ROUNDS := 50

  datatype Inquiry = Inquiry(
    workspace: string, channel: string, thread: string, text: string, backend: string,
    message: Option<string>, user: Option<string>)

  /** The call for a resolved workspace. The workspace's backend and limit win unless unset, empty
      or zero; the trace metadata is the redacted environment. */
  function CallFor(ws: Resolved, q: Inquiry): Call {
    Call(Key(q.workspace, q.channel, q.thread), q.text, ws.cwd, ws.env,
         if ws.spec.backend.Some? && ws.spec.backend.value != "" then ws.spec.backend.value else q.backend,
         if ws.spec.maxRounds.Some? && ws.spec.maxRounds.value != 0 then ws.spec.maxRounds.value
         else DEFAULT_MAX_ROUNDS,
         q.message, q.user, ws.RedactedEnv())
  }

  /** None: the workspace id is invalid, and nothing happened. */
  function HandleInquiry(config: Config, m: Memory, q: Inquiry, w: World): (h: Option<Handled>)
    requires m.Indexed()
    ensures h.Some? ==> h.value.mem.Indexed()
  {
    match Resolve(config, q.workspace, q.user)
    case None => None
    case Some(ws) => Some(Handle(m, CallFor(ws, q), w))
  }

  /** The tracer has recorded at most this one trace since it held `before`. */
  ghost predicate Traced(before: seq<TraceRecord>, tracer: MemoryTracer, trace: Option<Trace>)
    reads tracer, tracer.traces
  {
    match trace
    case None => tracer.traces == before
    case Some(t) =>
      |tracer.traces| == |before| + 1 && before <= tracer.traces && tracer.traces[|before|].View() == t
  }

  class WorkspaceConversationGateway {
    const config: Config
    const conversation: ConversationService

    constructor (config: Config, conversation: ConversationService)
      ensures this.config == config && this.conversation == conversation
    {
      this.config, this.conversation := config, conversation;
    }

    method HandleMessage(q: Inquiry, w: World) returns (result: Option<Result>)
      requires conversation.store.Value().Indexed()
      modifies conversation.store, conversation.tracer
      ensures var h := HandleInquiry(config, old(conversation.store.Value()), q, w);
        && (h.None? ==> result.None? && conversation.store.Value() == old(conversation.store.Value()) &&
                        conversation.tracer.traces == old(conversation.tracer.traces))
        && (h.Some? ==> result == Some(h.value.result) && conversation.store.Value() == h.value.mem &&
                        Traced(old(conversation.tracer.traces), conversation.tracer, h.value.trace))
    {
      var ws := ResolveWorkspace(config, q.workspace, q.user);
      if ws.None? {
        return None;
      }
      var r, _ := conversation.HandleCall(CallFor(ws.value, q), w);
      result := Some(r);
    }
  }

  /** The call an inquiry becomes: its own workspace, channel and thread, text, message and user; the
      workspace's directory and environment; the workspace's backend and limit if it has any, else
      the inquiry's and 50; and the redacted environment for the trace. */
  lemma CallIs(config: Config, q: Inquiry)
    requires NameOk(q.workspace)
    ensures var ws := Resolve(config, q.workspace, q.user).value;
      var backend := if ws.spec.backend.Some? && ws.spec.backend.value != "" then ws.spec.backend.value else q.backend;
      var limit := if ws.spec.maxRounds.Some? && ws.spec.maxRounds.value != 0 then ws.spec.maxRounds.value else 50;
      CallFor(ws, q) == Call(Key(q.workspace, q.channel, q.thread), q.text, ws.cwd, ws.env, backend, limit, q.message,
                             q.user, ws.RedactedEnv())
  {
  }

  /** Two inquiries lead to one session key exactly if workspace, channel and thread agree. */
  lemma SameKeyIff(config: Config, p: Inquiry, q: Inquiry)
    requires NameOk(p.workspace) && NameOk(q.workspace)
    ensures var a := CallFor(Resolve(config, p.workspace, p.user).value, p);
      var b := CallFor(Resolve(config, q.workspace, q.user).value, q);
      a.key == b.key <==> p.workspace == q.workspace && p.channel == q.channel && p.thread == q.thread
  {
  }

  lemma RequestCarries(m: Memory, call: Call, w: World)
    requires m.Indexed() && Handle(m, call, w).request.Some?
    ensures var request := Handle(m, call, w).request.value;
      && request.cwd == call.cwd && request.env == call.env && request.prompt == call.text
      && request.dims.workspace == call.key.workspace && request.dims.user == call.user
  {
  }

  /** What an inquiry asks of a backend, if it does: in the workspace's own directory and with its
      environment. */
  lemma InquiryRequest(config: Config, m: Memory, q: Inquiry, w: World)
    requires m.Indexed()
    ensures var h := HandleInquiry(config, m, q, w);
      && (h.None? <==> !NameOk(q.workspace))
      && (h.Some? && h.value.request.Some? ==>
            var ws := Resolve(config, q.workspace, q.user).value;
            && h.value.request.value.cwd == ws.cwd && h.value.request.value.env == ws.env
            && h.value.request.value.prompt == q.text
            && h.value.request.value.dims.workspace == q.workspace && h.value.request.value.dims.user == q.user)
  {
    if NameOk(q.workspace) {
      var call := CallFor(Resolve(config, q.workspace, q.user).value, q);
      if Handle(m, call, w).request.Some? {
        RequestCarries(m, call, w);
      }
    }
  }

  // ----- Two runs -----

  /** Two calls that differ at most in the values the backend's environment has under sensitive
      keys. */
  ghost predicate SameButEnv(a: Call, b: Call) {
    a.(env := b.env) == b
  }

  lemma HandleIgnoresEnv(m: Memory, a: Call, b: Call, w: World)
    requires m.Indexed() && SameButEnv(a, b)
    ensures var h, g := Handle(m, a, w), Handle(m, b, w);
      && h.(request := g.request) == g
      && (h.request.Some? <==> g.request.Some?)
      && (h.request.Some? ==> h.request.value == g.request.value.(env := a.env) && g.request.value.env == b.env)
  {
  }

  lemma EnvsMatch(c: Config, d: Config, workspace: string, user: Option<string>, x: Request, y: Request)
    requires SameButSecretValues(c, d) && NameOk(workspace)
    requires x.env == Resolve(c, workspace, user).value.env && y.env == Resolve(d, workspace, user).value.env
    requires x == y.(env := x.env)
    ensures RequestsMatch(EnvFor(c.secrets, workspace), EnvFor(d.secrets, workspace), x, y)
  {
    ResolveSeparates(c, d, workspace, user);
  }

  /** One inquiry on two systems whose secrets differ only in values: the same store, result and
      trace; and if a backend is asked, it is asked the same thing, with environments that agree
      off the workspace's secret keys and carry each system's own secret on them. */
  lemma TraceNonInterference(c: Config, d: Config, m: Memory, q: Inquiry, w: World)
    requires m.Indexed() && SameButSecretValues(c, d)
    ensures var h, g := HandleInquiry(c, m, q, w), HandleInquiry(d, m, q, w);
      && (h.None? <==> g.None?)
      && (h.Some? ==>
            && h.value.(request := g.value.request) == g.value
            && (h.value.request.Some? <==> g.value.request.Some?)
            && (h.value.request.Some? ==>
                  RequestsMatch(EnvFor(c.secrets, q.workspace), EnvFor(d.secrets, q.workspace),
                                h.value.request.value, g.value.request.value)))
  {
    ResolveSeparates(c, d, q.workspace, q.user);
    if Resolve(c, q.workspace, q.user).Some? {
      var a, b := Resolve(c, q.workspace, q.user).value, Resolve(d, q.workspace, q.user).value;
      HandleIgnoresEnv(m, CallFor(a, q), CallFor(b, q), w);
      var h, g := Handle(m, CallFor(a, q), w), Handle(m, CallFor(b, q), w);
      if h.request.Some? {
        EnvsMatch(c, d, q.workspace, q.user, h.request.value, g.request.value);
      }
    }
  }

  ghost predicate RequestsMatch(secretsA: Env, secretsB: Env, a: Request, b: Request) {
    && a.(env := b.env) == b
    && a.env.Keys == b.env.Keys
    && secretsA.Keys == secretsB.Keys
    && forall k :: k in a.env ==>
         if k in secretsA then a.env[k] == secretsA[k] && b.env[k] == secretsB[k] else a.env[k] == b.env[k]
  }

  datatype Observed = Observed(mem: Memory, traces: seq<Trace>, results: seq<Option<Result>>)

  /** The store, traces and results after a history of inquiries. */
  function Observe(config: Config, inputs: seq<(Inquiry, World)>): (o: Observed)
    ensures o.mem.Indexed()
  {
    if inputs == [] then Observed(EMPTY, [], [])
    else
      var o := Observe(config, inputs[..|inputs| - 1]);
      var (q, w) := inputs[|inputs| - 1];
      match HandleInquiry(config, o.mem, q, w)
      case None => o.(results := o.results + [None])
      case Some(h) =>
        Observed(h.mem, o.traces + (if h.trace.Some? then [h.trace.value] else []), o.results + [Some(h.result)])
  }

  /** Over any history of inquiries, with backends that emit the same events, everything but the
      environment handed to the backend is the same whatever the secrets are. */
  lemma {:induction false} HistoryNonInterference(c: Config, d: Config, inputs: seq<(Inquiry, World)>)
    requires SameButSecretValues(c, d)
    ensures Observe(c, inputs) == Observe(d, inputs)
  {
    if inputs != [] {
      var front, last := inputs[..|inputs| - 1], inputs[|inputs| - 1];
      HistoryNonInterference(c, d, front);
      TraceNonInterference(c, d, Observe(c, front).mem, last.0, last.1);
    }
  }
}

/** The inbound loop: verify, parse, route, converse, reply (engine/channels/runner.py). */
module Runner {
  import opened Wrappers
  import opened Runtime
  import opened Engine
  import opened Sessions
  import opened MemoryStore
  import opened Workspace
  import opened Conversation
  import opened Gateway

  /** What the channel adapter and the router make of a raw message. */
  datatype Inbound =
    | Unverified
    | Unparsable
    | Unroutable
    | Routed(q: Inquiry, rawUser: string)

  datatype Reply = Reply(channel: string, thread: string, rawUser: string, text: Json)

  datatype State = State(mem: Memory, replies: seq<Reply>)

  function Receive(config: Config, st: State, inbound: Inbound, w: World): (st': State)
    requires st.mem.Indexed()
    ensures st'.mem.Indexed()
  {
    if !inbound.Routed? then st
    else
      match HandleInquiry(config, st.mem, inbound.q, w)
      case None => st
      case Some(h) =>
        State(h.mem,
              st.replies +
              if h.result.Replied?
              then [Reply(inbound.q.channel, inbound.q.thread, inbound.rawUser, h.result.result.finalText)] else [])
  }

  class ChannelRunner {
    const gateway: WorkspaceConversationGateway
    var replies: seq<Reply>

    constructor (gateway: WorkspaceConversationGateway)
      ensures this.gateway == gateway && replies == []
    {
      this.gateway, replies := gateway, [];
    }

    method HandleRaw(inbound: Inbound, w: World)
      requires gateway.conversation.store.Value().Indexed()
      modifies this, gateway.conversation.store, gateway.conversation.tracer
      ensures State(gateway.conversation.store.Value(), replies) ==
              Receive(gateway.config, State(old(gateway.conversation.store.Value()), old(replies)), inbound, w)
    {
      if !inbound.Routed? {
        return;
      }
      var q := inbound.q;
      var result := gateway.HandleMessage(q, w);
      if result.Some? && result.value.Replied? {
        replies := replies + [Reply(q.channel, q.thread, inbound.rawUser, result.value.result.finalText)];
      }
    }
  }

  // ----- Conservation -----

  /** The rounds of all sessions together. */
  ghost function TotalRounds(byId: map<string, Session>): int {
    if byId == map[] then 0
    else
      var id :| id in byId;
      byId[id].rounds + TotalRounds(byId - {id})
  }

  lemma {:induction false} TotalWithout(byId: map<string, Session>, id: string)
    requires id in byId
    ensures TotalRounds(byId) == byId[id].rounds + TotalRounds(byId - {id})
    decreases |byId|
  {
    var pick :| pick in byId && TotalRounds(byId) == byId[pick].rounds + TotalRounds(byId - {pick});
    if pick != id {
      TotalWithout(byId - {pick}, id);
      TotalWithout(byId - {id}, pick);
      assert byId - {pick} - {id} == byId - {id} - {pick};
    }
  }

  lemma TotalAfterUpdate(byId: map<string, Session>, s: Session)
    ensures TotalRounds(byId[s.id := s]) ==
            TotalRounds(byId) + s.rounds - if s.id in byId then byId[s.id].rounds else 0
  {
    var byId' := byId[s.id := s];
    TotalWithout(byId', s.id);
    assert byId' - {s.id} == byId - {s.id};
    if s.id in byId {
      TotalWithout(byId, s.id);
    } else {
      assert byId - {s.id} == byId;
    }
  }

  /** Every session sits under its own id. */
  ghost predicate IdsAgree(m: Memory) {
    m.Indexed() && forall id :: id in m.byId ==> m.byId[id].id == id
  }

  lemma OpenConserves(m: Memory, call: Call, newId: string)
    requires IdsAgree(m) && newId !in m.byId
    ensures var m1, s := Opened(m, call, newId), SessionOf(m, call, newId);
      && IdsAgree(m1) && m1.byId.Keys <= m.byId.Keys + {newId}
      && TotalRounds(m1.byId) == TotalRounds(m.byId)
      && s.id in m1.byId && m1.byId[s.id] == s
  {
    if call.key !in m.keyToId {
      TotalAfterUpdate(m.byId, SessionOf(m, call, newId));
    }
  }

  lemma RecordConserves(m: Memory, call: Call, s: Session, result: RunResult, now: real)
    requires IdsAgree(m) && s.id in m.byId && m.byId[s.id] == s
    ensures var m' := Recorded(m, call, s, result, now);
      IdsAgree(m') && m'.byId.Keys == m.byId.Keys && TotalRounds(m'.byId) == TotalRounds(m.byId) + 1
  {
    var s' := s.WithTurn(result.thread, now);
    TotalAfterUpdate(m.byId, s');
    assert Recorded(m, call, s, result, now).byId == m.byId[s'.id := s'];
  }

  lemma CallConserves(m: Memory, call: Call, w: World)
    requires IdsAgree(m) && w.newId !in m.byId
    ensures var h := Handle(m, call, w);
      && IdsAgree(h.mem)
      && h.mem.byId.Keys <= m.byId.Keys + {w.newId}
      && TotalRounds(h.mem.byId) == TotalRounds(m.byId) + if h.result.Replied? then 1 else 0
  {
    OpenConserves(m, call, w.newId);
    var h := Handle(m, call, w);
    if h.result.Replied? {
      RecordConserves(Opened(m, call, w.newId), call, SessionOf(m, call, w.newId), h.result.result, w.now);
    }
  }

  function Run(config: Config, inputs: seq<(Inbound, World)>): (st: State)
    ensures st.mem.Indexed()
  {
    if inputs == [] then State(EMPTY, [])
    else Receive(config, Run(config, inputs[..|inputs| - 1]), inputs[|inputs| - 1].0, inputs[|inputs| - 1].1)
  }

  ghost predicate FreshIds(inputs: seq<(Inbound, World)>) {
    forall i, j :: 0 <= i < j < |inputs| ==> inputs[i].1.newId != inputs[j].1.newId
  }

  lemma ReceiveConserves(config: Config, st: State, inbound: Inbound, w: World)
    requires IdsAgree(st.mem) && w.newId !in st.mem.byId && |st.replies| == TotalRounds(st.mem.byId)
    ensures var st' := Receive(config, st, inbound, w);
      && |st'.replies| == TotalRounds(st'.mem.byId)
      && IdsAgree(st'.mem)
      && st'.mem.byId.Keys <= st.mem.byId.Keys + {w.newId}
  {
    if inbound.Routed? {
      var ws := Resolve(config, inbound.q.workspace, inbound.q.user);
      if ws.Some? {
        CallConserves(st.mem, CallFor(ws.value, inbound.q), w);
      }
    }
  }

  ghost predicate Drawn(inputs: seq<(Inbound, World)>, id: string) {
    exists i :: 0 <= i < |inputs| && inputs[i].1.newId == id
  }

  lemma DrawnSnoc(inputs: seq<(Inbound, World)>, id: string)
    requires inputs != []
    ensures Drawn(inputs, id) <==> Drawn(inputs[..|inputs| - 1], id) || id == inputs[|inputs| - 1].1.newId
  {
    var front := inputs[..|inputs| - 1];
    if Drawn(front, id) {
      var i :| 0 <= i < |front| && front[i].1.newId == id;
      assert inputs[i].1.newId == id;
    }
  }

  lemma FreshFront(inputs: seq<(Inbound, World)>)
    requires inputs != [] && FreshIds(inputs)
    ensures FreshIds(inputs[..|inputs| - 1]) && !Drawn(inputs[..|inputs| - 1], inputs[|inputs| - 1].1.newId)
  {
    assert forall i :: 0 <= i < |inputs| - 1 ==> inputs[..|inputs| - 1][i] == inputs[i];
  }

  /** Over any sequence of raw messages, rejected, unroutable, duplicate, over the limit, failed
      or answered, as many replies have been sent as rounds are on record. */
  lemma {:induction false} RepliesAreRounds(config: Config, inputs: seq<(Inbound, World)>)
    requires FreshIds(inputs)
    ensures var st := Run(config, inputs);
      && |st.replies| == TotalRounds(st.mem.byId)
      && IdsAgree(st.mem)
      && (forall id :: id in st.mem.byId ==> Drawn(inputs, id))
  {
    if inputs != [] {
      var front, last := inputs[..|inputs| - 1], inputs[|inputs| - 1];
      FreshFront(inputs);
      RepliesAreRounds(config, front);
      var st := Run(config, front);
      assert last.1.newId in st.mem.byId ==> Drawn(front, last.1.newId);
      ReceiveConserves(config, st, last.0, last.1);
      forall id | id in Run(config, inputs).mem.byId ensures Drawn(inputs, id) {
        DrawnSnoc(inputs, id);
      }
    }
  }

  /** Input `inbound` was answered with `reply`: it goes to the message's own channel, thread and
      user, with the final text of the result its turn returned. */
  ghost predicate Answers(inbound: Inbound, w: World, reply: Reply) {
    && inbound.Routed? && w.caps.Some?
    && var outcome := TurnOf(w.stream, w.caps.value.streaming, None).outcome;
      && outcome.Returned?
      && reply == Reply(inbound.q.channel, inbound.q.thread, inbound.rawUser, outcome.result.finalText)
  }

  lemma ReceiveAnswers(config: Config, st: State, inbound: Inbound, w: World)
    requires st.mem.Indexed()
    ensures var st' := Receive(config, st, inbound, w);
      st'.replies == st.replies ||
      (|st'.replies| == |st.replies| + 1 && st.replies <= st'.replies &&
       Answers(inbound, w, st'.replies[|st.replies|]))
  {
  }

  /** `at` lists the inputs that were answered, in order, each with its own reply. */
  ghost predicate Answered(at: seq<nat>, inputs: seq<(Inbound, World)>, replies: seq<Reply>) {
    && |at| == |replies|
    && (forall i :: 0 <= i < |at| ==> at[i] < |inputs| && Answers(inputs[at[i]].0, inputs[at[i]].1, replies[i]))
    && (forall i, j :: 0 <= i < j < |at| ==> at[i] < at[j])
  }

  lemma AnsweredMore(at: seq<nat>, front: seq<(Inbound, World)>, last: (Inbound, World), replies: seq<Reply>)
    requires Answered(at, front, replies)
    ensures Answered(at, front + [last], replies)
    ensures forall reply :: Answers(last.0, last.1, reply) ==>
              Answered(at + [|front|], front + [last], replies + [reply])
  {
  }

  /** The call that input `k` becomes returns a result. */
  ghost predicate Due(config: Config, inputs: seq<(Inbound, World)>, k: nat)
    requires k < |inputs|
  {
    inputs[k].0.Routed? &&
    var h := HandleInquiry(config, Run(config, inputs[..k]).mem, inputs[k].0.q, inputs[k].1);
    h.Some? && h.value.result.Replied?
  }

  ghost predicate AllDue(config: Config, at: seq<nat>, inputs: seq<(Inbound, World)>) {
    forall k :: 0 <= k < |inputs| ==> (k in at <==> Due(config, inputs, k))
  }

  lemma DueStays(config: Config, front: seq<(Inbound, World)>, last: (Inbound, World), k: nat)
    requires k < |front|
    ensures Due(config, front + [last], k) <==> Due(config, front, k)
  {
    assert (front + [last])[..k] == front[..k];
  }

  lemma AllDueMore(config: Config, at: seq<nat>, front: seq<(Inbound, World)>, last: (Inbound, World))
    requires AllDue(config, at, front) && forall i :: 0 <= i < |at| ==> at[i] < |front|
    ensures AllDue(config, if Due(config, front + [last], |front|) then at + [|front|] else at, front + [last])
  {
    forall k | 0 <= k < |front| ensures Due(config, front + [last], k) <==> k in at {
      DueStays(config, front, last, k);
      assert k in at <==> Due(config, front, k);
    }
  }

  lemma ReceiveReplies(config: Config, front: seq<(Inbound, World)>, last: (Inbound, World))
    ensures var before, after := Run(config, front).replies, Run(config, front + [last]).replies;
      if Due(config, front + [last], |front|) then
        |after| == |before| + 1 && after == before + [after[|before|]] && Answers(last.0, last.1, after[|before|])
      else after == before
  {
    assert (front + [last])[..|front|] == front;
    ReceiveAnswers(config, Run(config, front), last.0, last.1);
  }

  /** Every reply of a run answers a message of its own: it goes where that message came from, with
      the text of the result of that message's turn; and every message whose call returns a result
      is answered. */
  lemma {:induction false} RepliesAnswer(config: Config, inputs: seq<(Inbound, World)>) returns (at: seq<nat>)
    ensures Answered(at, inputs, Run(config, inputs).replies) && AllDue(config, at, inputs)
  {
    at := [];
    if inputs != [] {
      var front, last := inputs[..|inputs| - 1], inputs[|inputs| - 1];
      assert inputs == front + [last];
      at := RepliesAnswer(config, front);
      ReceiveReplies(config, front, last);
      AnsweredMore(at, front, last, Run(config, front).replies);
      AllDueMore(config, at, front, last);
      if Due(config, inputs, |front|) {
        at := at + [|front|];
      }
    }
  }
}

/** What the inbound loop does is what the conversation history of its messages says. */
module RunnerHistory {
  import opened Names
  import opened Workspace
  import opened Conversation
  import opened ConversationHistory
  import opened Gateway
  import Runner

  /** The attempt a message becomes, if it is verified, parsed and routed to a valid workspace. */
  function AttemptOf(config: Config, input: (Runner.Inbound, World)): seq<Attempt> {
    if !input.0.Routed? || !NameOk(input.0.q.workspace) then []
    else
      var q := input.0.q;
      [Attempt(CallFor(Resolve(config, q.workspace, q.user).value, q), input.1)]
  }

  function AttemptsOf(config: Config, inputs: seq<(Runner.Inbound, World)>): seq<Attempt> {
    if inputs == [] then []
    else AttemptsOf(config, inputs[..|inputs| - 1]) + AttemptOf(config, inputs[|inputs| - 1])
  }

  lemma ReceiveIs(config: Config, st: Runner.State, input: (Runner.Inbound, World), history: seq<Attempt>)
    requires st.mem == After(history)
    ensures Runner.Receive(config, st, input.0, input.1).mem == After(history + AttemptOf(config, input))
  {
    if AttemptOf(config, input) == [] {
      assert history + [] == history;
    } else {
      LastIs(history, AttemptOf(config, input)[0]);
    }
  }

  /** The store after any sequence of messages is that of the history of their attempts. */
  lemma {:induction false} RunIsHistory(config: Config, inputs: seq<(Runner.Inbound, World)>)
    ensures Runner.Run(config, inputs).mem == After(AttemptsOf(config, inputs))
  {
    if inputs != [] {
      var front, last := inputs[..|inputs| - 1], inputs[|inputs| - 1];
      RunIsHistory(config, front);
      ReceiveIs(config, Runner.Run(config, front), last, AttemptsOf(config, front));
    }
  }

  /** A message is answered exactly if its attempt succeeds in the history so far. */
  lemma DueIff(config: Config, inputs: seq<(Runner.Inbound, World)>, k: nat)
    requires k < |inputs|
    ensures Runner.Due(config, inputs, k) <==>
      AttemptOf(config, inputs[k]) != [] && Succeeds(AttemptsOf(config, inputs[..k]) + AttemptOf(config, inputs[k]))
  {
    RunIsHistory(config, inputs[..k]);
    if AttemptOf(config, inputs[k]) != [] {
      LastIs(AttemptsOf(config, inputs[..k]), AttemptOf(config, inputs[k])[0]);
    }
  }
}
