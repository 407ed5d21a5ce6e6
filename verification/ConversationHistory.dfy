/** What a whole sequence of calls, with any mixture of failures, adds up to. */
module ConversationHistory {
  import opened Wrappers
  import opened Runtime
  import opened Sessions
  import opened MemoryStore
  import opened Tracing
  import opened Engine
  import opened Conversation

  datatype Attempt = Attempt(call: Call, world: World)

  /** The store after a history of attempts. */
  function After(history: seq<Attempt>): (m: Memory)
    ensures m.Indexed()
  {
    if history == [] then EMPTY else Last(history).mem
  }

  /** What the last attempt of a history did. */
  function Last(history: seq<Attempt>): (h: Handled)
    requires history != []
    ensures h.mem.Indexed()
    decreases history, 0
  {
    var last := history[|history| - 1];
    Handle(After(history[..|history| - 1]), last.call, last.world)
  }

  predicate Succeeds(history: seq<Attempt>)
    requires history != []
  {
    Last(history).result.Replied?
  }

  /** Uuids are drawn once. */
  ghost predicate FreshIds(history: seq<Attempt>) {
    forall i, j :: 0 <= i < j < |history| ==> history[i].world.newId != history[j].world.newId
  }

  // ----- What a history says about a natural key, without looking at the store -----

  function Successes(history: seq<Attempt>, key: Key): nat {
    if history == [] then 0
    else Successes(history[..|history| - 1], key) +
         if history[|history| - 1].call.key == key && Succeeds(history) then 1 else 0
  }

  /** The resume handle of the last success on the key, Null before the first. */
  function LastHandle(history: seq<Attempt>, key: Key): Json {
    if history == [] then Null
    else if history[|history| - 1].call.key == key && Succeeds(history) then Last(history).result.result.thread
    else LastHandle(history[..|history| - 1], key)
  }

  /** The first attempt on the key. */
  function First(history: seq<Attempt>, key: Key): Option<Attempt> {
    if history == [] then None
    else if history[0].call.key == key then Some(history[0])
    else First(history[1..], key)
  }

  /** The messages that were answered on the key. */
  function Answered(history: seq<Attempt>, key: Key): set<string> {
    if history == [] then {}
    else
      var call := history[|history| - 1].call;
      Answered(history[..|history| - 1], key) +
      if call.key == key && Succeeds(history) && call.message.Some? then {call.message.value} else {}
  }

  /** The attempt that opened the session `a` uses. */
  function Opener(front: seq<Attempt>, a: Attempt): Attempt {
    match First(front, a.call.key)
    case Some(first) => first
    case None => a
  }

  lemma FirstOfSnoc(history: seq<Attempt>, a: Attempt, key: Key)
    ensures First(history + [a], key) ==
            if First(history, key).Some? then First(history, key) else if a.call.key == key then Some(a) else None
  {
    if history == [] {
      assert [a][1..] == [] && [] + [a] == [a];
    } else {
      assert (history + [a])[1..] == history[1..] + [a];
      FirstOfSnoc(history[1..], a, key);
    }
  }

  /** What a history says about one key. */
  datatype Summary = Summary(first: Option<Attempt>, successes: nat, handle: Json, answered: set<string>)

  function SummaryOf(history: seq<Attempt>, key: Key): Summary {
    Summary(First(history, key), Successes(history, key), LastHandle(history, key), Answered(history, key))
  }

  /** The store's session for a key is what the summary says. */
  ghost predicate Accounts(m: Memory, key: Key, sum: Summary) {
    && (key in m.keyToId <==> sum.first.Some?)
    && (key !in m.keyToId ==> sum == Summary(None, 0, Null, {}))
    && (key in m.keyToId ==>
          m.keyToId[key] in m.byId && SessionAccounts(m, m.byId[m.keyToId[key]], m.keyToId[key], key, sum))
  }

  ghost predicate SessionAccounts(m: Memory, s: Session, id: string, key: Key, sum: Summary) {
    && sum.first.Some?
    && s == Session(sum.first.value.world.newId, key, sum.first.value.call.backend, sum.handle,
                    sum.successes, sum.first.value.call.maxRounds, s.lastActive)
    && s.id == id
    && forall msg :: (id, msg) in m.processed <==> msg in sum.answered
  }

  /** Distinct keys have distinct sessions; ids and marks come from uuids the history drew. */
  ghost predicate Separate(history: seq<Attempt>, m: Memory) {
    && (forall k, l :: k in m.keyToId && l in m.keyToId && k != l ==> m.keyToId[k] != m.keyToId[l])
    && (forall k :: k in m.keyToId ==> Drawn(history, m.keyToId[k]))
    && (forall p :: p in m.processed ==> Drawn(history, p.0))
  }

  ghost predicate Drawn(history: seq<Attempt>, id: string) {
    exists i :: 0 <= i < |history| && history[i].world.newId == id
  }

  lemma DrawnGrows(history: seq<Attempt>, a: Attempt)
    ensures forall id :: Drawn(history + [a], id) <==> Drawn(history, id) || id == a.world.newId
  {
    var h' := history + [a];
    assert h'[|history|] == a;
    forall id | Drawn(history, id) ensures Drawn(h', id) {
      var i :| 0 <= i < |history| && history[i].world.newId == id;
      assert h'[i] == history[i];
    }
  }

  /** Opening the session of an attempt adds a summary for its key if there was none. */
  lemma OpenAccounts(front: seq<Attempt>, a: Attempt, m: Memory, key: Key, sum: Summary)
    requires m.Indexed() && Separate(front, m) && !Drawn(front, a.world.newId) && Accounts(m, key, sum)
    ensures var m1 := Opened(m, a.call, a.world.newId);
      var first := if sum.first.Some? then sum.first else if a.call.key == key then Some(a) else None;
      Accounts(m1, key, sum.(first := first))
  {
    if key in m.keyToId {
      assert Drawn(front, m.keyToId[key]);
    } else if a.call.key == key {
      forall msg ensures (a.world.newId, msg) !in m.processed {
        assert (a.world.newId, msg) in m.processed ==> Drawn(front, (a.world.newId, msg).0);
      }
    }
  }

  lemma OpenSeparate(front: seq<Attempt>, a: Attempt, m: Memory)
    requires m.Indexed() && Separate(front, m) && !Drawn(front, a.world.newId)
    ensures Separate(front + [a], Opened(m, a.call, a.world.newId))
  {
    DrawnGrows(front, a);
  }

  /** Recording a success adds one round, its handle and its message to the summary of its key,
      and leaves every other key's alone. */
  lemma RecordAccounts(m: Memory, call: Call, s: Session, result: RunResult, now: real, key: Key, sum: Summary)
    requires m.Indexed() && call.key in m.keyToId && m.keyToId[call.key] in m.byId && s == m.byId[m.keyToId[call.key]]
    requires s.id == m.keyToId[call.key] && s.key == call.key
    requires forall k, l :: k in m.keyToId && l in m.keyToId && k != l ==> m.keyToId[k] != m.keyToId[l]
    requires Accounts(m, key, sum)
    ensures Accounts(Recorded(m, call, s, result, now), key,
                     if call.key != key then sum
                     else sum.(successes := sum.successes + 1, handle := result.thread,
                               answered := sum.answered + if call.message.Some? then {call.message.value} else {}))
  {
    var m' := Recorded(m, call, s, result, now);
    assert m'.keyToId == m.keyToId;
    if key in m.keyToId && call.key != key {
      assert m'.byId[m.keyToId[key]] == m.byId[m.keyToId[key]];
    }
  }

  lemma LastIs(front: seq<Attempt>, a: Attempt)
    ensures Last(front + [a]) == Handle(After(front), a.call, a.world)
    ensures After(front + [a]) == Handle(After(front), a.call, a.world).mem
  {
    assert (front + [a])[..|front|] == front;
  }

  /** What an attempt adds to the summary of a key; `reply` is its result if it succeeds. */
  function Extended(sum: Summary, a: Attempt, key: Key, reply: Option<RunResult>): Summary {
    var first := if sum.first.Some? then sum.first else if a.call.key == key then Some(a) else None;
    if a.call.key != key || reply.None? then sum.(first := first)
    else
      Summary(first, sum.successes + 1, reply.value.thread,
              sum.answered + if a.call.message.Some? then {a.call.message.value} else {})
  }

  function ReplyOf(h: Handled): Option<RunResult> {
    if h.result.Replied? then Some(h.result.result) else None
  }

  lemma SummaryOfSnoc(front: seq<Attempt>, a: Attempt, key: Key)
    ensures SummaryOf(front + [a], key) ==
            Extended(SummaryOf(front, key), a, key, ReplyOf(Last(front + [a])))
  {
    LastIs(front, a);
    FirstOfSnoc(front, a, key);
    assert (front + [a])[..|front|] == front;
    assert Answered(front, key) + {} == Answered(front, key);
  }

  lemma OpenedSession(front: seq<Attempt>, a: Attempt)
    requires !Drawn(front, a.world.newId) && Separate(front, After(front))
    requires Accounts(After(front), a.call.key, SummaryOf(front, a.call.key))
    ensures var m1, s := Opened(After(front), a.call, a.world.newId), SessionOf(After(front), a.call, a.world.newId);
      && a.call.key in m1.keyToId && m1.keyToId[a.call.key] in m1.byId && s == m1.byId[m1.keyToId[a.call.key]]
      && s.id == m1.keyToId[a.call.key] && s.key == a.call.key
    ensures Separate(front + [a], Opened(After(front), a.call, a.world.newId))
  {
    OpenAccounts(front, a, After(front), a.call.key, SummaryOf(front, a.call.key));
    OpenSeparate(front, a, After(front));
  }

  /** The store after an attempt with the given reply. */
  function Outcome(front: seq<Attempt>, a: Attempt, reply: Option<RunResult>): Memory {
    var m1 := Opened(After(front), a.call, a.world.newId);
    if reply.None? then m1
    else Recorded(m1, a.call, SessionOf(After(front), a.call, a.world.newId), reply.value, a.world.now)
  }

  lemma ExtendAccounts(front: seq<Attempt>, a: Attempt, key: Key, reply: Option<RunResult>)
    requires !Drawn(front, a.world.newId) && Separate(front, After(front))
    requires Accounts(After(front), key, SummaryOf(front, key))
    requires Accounts(After(front), a.call.key, SummaryOf(front, a.call.key))
    ensures var m := Outcome(front, a, reply);
      Accounts(m, key, Extended(SummaryOf(front, key), a, key, reply)) && Separate(front + [a], m)
  {
    var m, sum := After(front), SummaryOf(front, key);
    OpenedSession(front, a);
    OpenAccounts(front, a, m, key, sum);
    if reply.Some? {
      var m1, s := Opened(m, a.call, a.world.newId), SessionOf(m, a.call, a.world.newId);
      RecordAccounts(m1, a.call, s, reply.value, a.world.now, key, Extended(sum, a, key, None));
      RecordSeparate(front + [a], m1, a.call, s, reply.value, a.world.now);
    }
  }

  lemma StepAccounts(front: seq<Attempt>, a: Attempt, key: Key)
    requires !Drawn(front, a.world.newId) && Separate(front, After(front))
    requires Accounts(After(front), key, SummaryOf(front, key))
    requires Accounts(After(front), a.call.key, SummaryOf(front, a.call.key))
    ensures Accounts(After(front + [a]), key, SummaryOf(front + [a], key))
    ensures Separate(front + [a], After(front + [a]))
  {
    OutcomeIs(front, a);
    SummaryOfSnoc(front, a, key);
    ExtendAccounts(front, a, key, ReplyOf(Last(front + [a])));
  }

  lemma OutcomeIs(front: seq<Attempt>, a: Attempt)
    ensures After(front + [a]) == Outcome(front, a, ReplyOf(Last(front + [a])))
  {
    LastIs(front, a);
  }

  lemma RecordSeparate(history: seq<Attempt>, m: Memory, call: Call, s: Session, result: RunResult, now: real)
    requires m.Indexed() && Separate(history, m)
    requires call.key in m.keyToId && s.id == m.keyToId[call.key] && s.key == call.key
    ensures Separate(history, Recorded(m, call, s, result, now))
  {
    assert Recorded(m, call, s, result, now).keyToId == m.keyToId;
  }

  /** The store always holds, for every key, exactly what the history of attempts says. */
  lemma {:induction false} HistoryAccounts(history: seq<Attempt>)
    requires FreshIds(history)
    ensures forall key :: Accounts(After(history), key, SummaryOf(history, key))
    ensures Separate(history, After(history))
  {
    if history != [] {
      var front, a := history[..|history| - 1], history[|history| - 1];
      assert history == front + [a];
      HistoryAccounts(front);
      forall key ensures Accounts(After(history), key, SummaryOf(history, key)) {
        StepAccounts(front, a, key);
      }
      StepAccounts(front, a, a.call.key);
    }
  }

  // ----- The guarantees -----

  /** A key's round count is the number of its successful calls. */
  lemma RoundsCountSuccesses(history: seq<Attempt>, key: Key)
    requires FreshIds(history)
    ensures var m := After(history);
      if First(history, key).None? then key !in m.keyToId
      else key in m.keyToId && m.byId[m.keyToId[key]].rounds == Successes(history, key)
  {
    HistoryAccounts(history);
    assert Accounts(After(history), key, SummaryOf(history, key));
  }

  /** The session of a key. */
  function SessionAt(m: Memory, key: Key): Session
    requires m.Indexed() && key in m.keyToId
  {
    m.byId[m.keyToId[key]]
  }

  /** The store is identical if the key had a session; otherwise it has an unused one more for the
      key, without a mark, and every other key keeps its own. */
  ghost predicate OnlyOpened(m: Memory, m': Memory, call: Call, newId: string)
    requires m.Indexed() && m'.Indexed()
  {
    if call.key in m.keyToId then m' == m
    else
      && m'.keyToId.Keys == m.keyToId.Keys + {call.key}
      && SessionAt(m', call.key) == NewSession(newId, call.key, call.backend, call.maxRounds)
      && m'.processed == m.processed
      && (forall message :: (newId, message) !in m'.processed)
      && (forall k :: k in m.keyToId ==> SessionAt(m', k) == SessionAt(m, k))
  }

  lemma OpenOnlyOpens(front: seq<Attempt>, m: Memory, call: Call, newId: string)
    requires m.Indexed() && Separate(front, m) && !Drawn(front, newId)
    ensures OnlyOpened(m, Opened(m, call, newId), call, newId)
  {
    forall message ensures (newId, message) !in m.processed {
      assert (newId, message) in m.processed ==> Drawn(front, (newId, message).0);
    }
    forall k | k in m.keyToId ensures m.keyToId[k] != newId {
      assert Drawn(front, m.keyToId[k]);
    }
  }

  /** A call that does not reply changes nothing beyond creating the session of its key. */
  lemma FailureChangesNothing(front: seq<Attempt>, a: Attempt)
    requires FreshIds(front + [a]) && !Last(front + [a]).result.Replied?
    ensures OnlyOpened(After(front), After(front + [a]), a.call, a.world.newId)
  {
    SplitFresh(front, a);
    HistoryAccounts(front);
    OpenOnlyOpens(front, After(front), a.call, a.world.newId);
    LastIs(front, a);
  }

  /** The session an attempt uses: its key's, with the id, backend and limit of the key's first
      call, the rounds of its successes and the handle of the last. */
  lemma AttemptSession(front: seq<Attempt>, a: Attempt)
    requires FreshIds(front + [a])
    ensures var s, first := SessionOf(After(front), a.call, a.world.newId), Opener(front, a);
      && s.id == first.world.newId && s.key == a.call.key
      && s.backend == first.call.backend && s.maxRounds == first.call.maxRounds
      && s.rounds == Successes(front, a.call.key) && s.thread == LastHandle(front, a.call.key)
  {
    SplitFresh(front, a);
    HistoryAccounts(front);
    assert Accounts(After(front), a.call.key, SummaryOf(front, a.call.key));
  }

  /** How an attempt ends: as a duplicate if its message was answered on the key; else with the round
      limit if the successes on the key have used up the first call's; else as its turn ends. */
  lemma ResultIs(front: seq<Attempt>, a: Attempt)
    requires FreshIds(front + [a])
    ensures Last(front + [a]).result ==
      if a.call.message.Some? && a.call.message.value in Answered(front, a.call.key) then DuplicateMessage
      else if Successes(front, a.call.key) >= Opener(front, a).call.maxRounds then RoundsExceeded
      else if a.world.caps.None? then TurnFailed(UnknownBackend)
      else
        var outcome := TurnOf(a.world.stream, a.world.caps.value.streaming, None).outcome;
        if outcome.Returned? then Replied(outcome.result) else TurnFailed(outcome)
  {
    AttemptSession(front, a);
    MarkedIffAnswered(front, a);
    LastIs(front, a);
  }

  lemma MarkedIffAnswered(front: seq<Attempt>, a: Attempt)
    requires FreshIds(front + [a])
    ensures var id := SessionOf(After(front), a.call, a.world.newId).id;
      forall m :: (id, m) in Opened(After(front), a.call, a.world.newId).processed <==> m in Answered(front, a.call.key)
  {
    SplitFresh(front, a);
    HistoryAccounts(front);
    OpenAccounts(front, a, After(front), a.call.key, SummaryOf(front, a.call.key));
    OpenedSession(front, a);
  }

  lemma RecordedIs(m: Memory, call: Call, s: Session, result: RunResult, now: real)
    requires m.Indexed() && s.key == call.key
    ensures var m' := Recorded(m, call, s, result, now);
      && call.key in m'.keyToId
      && SessionAt(m', call.key) ==
         Session(s.id, s.key, s.backend, result.thread, s.rounds + 1, s.maxRounds, now)
      && m'.processed == m.processed + if call.message.Some? then {(s.id, call.message.value)} else {}
  {
  }

  lemma OpenedKeepsMarks(m: Memory, call: Call, newId: string)
    requires m.Indexed()
    ensures Opened(m, call, newId).processed == m.processed
  {
  }

  /** What a success leaves: the key's session, with one round more, its handle and its time, and its
      mark. */
  lemma SuccessRecords(front: seq<Attempt>, a: Attempt)
    requires FreshIds(front + [a]) && Succeeds(front + [a])
    ensures var m, key, first := After(front + [a]), a.call.key, Opener(front, a);
      && key in m.keyToId
      && SessionAt(m, key) == Session(first.world.newId, key, first.call.backend,
                                      Last(front + [a]).result.result.thread, Successes(front, key) + 1,
                                      first.call.maxRounds, a.world.now)
      && m.processed == After(front).processed +
                        if a.call.message.Some? then {(first.world.newId, a.call.message.value)} else {}
  {
    var s, result := SessionOf(After(front), a.call, a.world.newId), Last(front + [a]).result.result;
    AttemptSession(front, a);
    OutcomeIs(front, a);
    OpenedKeepsMarks(After(front), a.call, a.world.newId);
    RecordedIs(Opened(After(front), a.call, a.world.newId), a.call, s, result, a.world.now);
  }

  /** What the backend is asked, and how: the first call's backend, this call's text, directory and
      environment, the key's resume handle, or none if the backend cannot resume, and the
      dimensions of the session. */
  lemma RequestIs(front: seq<Attempt>, a: Attempt)
    requires FreshIds(front + [a]) && Last(front + [a]).request.Some?
    ensures var first := Opener(front, a);
      && a.world.caps.Some?
      && Last(front + [a]).request.value ==
         Request(first.call.backend, a.call.text, a.call.cwd, a.call.env,
                 if a.world.caps.value.resume then LastHandle(front, a.call.key) else Null,
                 Dims(a.call.key.workspace, a.call.user, first.world.newId, first.call.backend))
  {
    AttemptSession(front, a);
    LastIs(front, a);
  }

  /** The trace holds the session's dimensions, the call's text and metadata, and what the turn itself
      recorded; and the call ends as the turn does. */
  ghost predicate TracesTurn(front: seq<Attempt>, a: Attempt, h: Handled)
    requires a.world.caps.Some? && h.trace.Some?
  {
    var turn, first := TurnOf(a.world.stream, a.world.caps.value.streaming, None), Opener(front, a);
    && h.trace.value == Trace(Dims(a.call.key.workspace, a.call.user, first.world.newId, first.call.backend),
                              a.call.text, a.call.traceMetadata, turn.tools, turn.output, turn.error, true)
    && h.result == if turn.outcome.Returned? then Replied(turn.outcome.result) else TurnFailed(turn.outcome)
  }

  /** The trace of a turn: the session's dimensions, this call's text and metadata, and what the
      turn itself recorded; and the call ends as the turn does. */
  lemma TraceIs(front: seq<Attempt>, a: Attempt)
    requires FreshIds(front + [a])
    ensures var h := Last(front + [a]);
      && (h.trace.Some? <==> h.request.Some?)
      && (h.request.None? ==> h.result in {DuplicateMessage, RoundsExceeded, TurnFailed(UnknownBackend)})
      && (h.trace.Some? ==> a.world.caps.Some? && TracesTurn(front, a, h))
  {
    AttemptSession(front, a);
    LastIs(front, a);
  }

  lemma {:induction false} FirstAt(history: seq<Attempt>, key: Key) returns (i: nat)
    requires First(history, key).Some?
    ensures i < |history| && First(history, key) == Some(history[i]) && history[i].call.key == key
  {
    if history[0].call.key == key {
      i := 0;
    } else {
      i := FirstAt(history[1..], key);
      i := i + 1;
    }
  }

  /** The opener of an attempt is an attempt on its key, no later. */
  lemma OpenerAt(history: seq<Attempt>, j: nat) returns (i: nat)
    requires j < |history|
    ensures i <= j && Opener(history[..j], history[j]) == history[i] && history[i].call.key == history[j].call.key
  {
    if First(history[..j], history[j].call.key).Some? {
      i := FirstAt(history[..j], history[j].call.key);
    } else {
      i := j;
    }
  }

  lemma {:induction false} FirstStays(history: seq<Attempt>, j: nat, k: nat, key: Key)
    requires j <= k <= |history| && First(history[..j], key).Some?
    ensures First(history[..k], key) == First(history[..j], key)
  {
    if j < k {
      FirstStays(history, j, k - 1, key);
      FirstOfSnoc(history[..k - 1], history[k - 1], key);
      assert history[..k] == history[..k - 1] + [history[k - 1]];
    }
  }

  /** Two attempts of a history use the same session exactly if they are on the same key. */
  lemma SharedIffSameKey(history: seq<Attempt>, j: nat, k: nat)
    requires FreshIds(history) && j < k < |history|
    ensures Opener(history[..j], history[j]).world.newId == Opener(history[..k], history[k]).world.newId <==>
            history[j].call.key == history[k].call.key
  {
    var i := OpenerAt(history, j);
    var l := OpenerAt(history, k);
    var key := history[j].call.key;
    if key == history[k].call.key {
      FirstOfSnoc(history[..j], history[j], key);
      assert history[..j + 1] == history[..j] + [history[j]];
      FirstStays(history, j + 1, k, key);
    } else {
      assert i != l;
      assert i < l ==> history[i].world.newId != history[l].world.newId;
      assert l < i ==> history[l].world.newId != history[i].world.newId;
    }
  }

  /** Every attempt that reaches a backend reaches the one the key's first call named, with the
      resume handle of the key's last success, or none if the backend cannot resume. */
  lemma ResumeChain(front: seq<Attempt>, a: Attempt)
    requires FreshIds(front + [a]) && Last(front + [a]).request.Some?
    ensures var request := Last(front + [a]).request.value;
      && request.backend == Opener(front, a).call.backend
      && a.world.caps.Some?
      && request.thread == (if a.world.caps.value.resume then LastHandle(front, a.call.key) else Null)
  {
    SplitFresh(front, a);
    HistoryAccounts(front);
    LastIs(front, a);
    FirstOfSnoc(front, a, a.call.key);
    assert Accounts(After(front), a.call.key, SummaryOf(front, a.call.key));
  }

  lemma SplitFresh(front: seq<Attempt>, a: Attempt)
    requires FreshIds(front + [a])
    ensures FreshIds(front)
    ensures !Drawn(front, a.world.newId)
  {
    var h := front + [a];
    assert forall i :: 0 <= i < |front| ==> h[i] == front[i];
    assert h[|front|] == a;
  }

  /** A message succeeds at most once on a key: once answered, it is only ever refused. */
  lemma AnsweredOnce(front: seq<Attempt>, a: Attempt)
    requires FreshIds(front + [a])
    requires a.call.message.Some? && a.call.message.value in Answered(front, a.call.key)
    ensures Last(front + [a]).result == DuplicateMessage
  {
    SplitFresh(front, a);
    HistoryAccounts(front);
    LastIs(front, a);
    assert Accounts(After(front), a.call.key, SummaryOf(front, a.call.key));
  }

  /** And a message that was not answered is not refused as a duplicate: failed turns can be
      retried. */
  lemma UnansweredRetries(front: seq<Attempt>, a: Attempt)
    requires FreshIds(front + [a])
    requires a.call.message.None? || a.call.message.value !in Answered(front, a.call.key)
    ensures Last(front + [a]).result != DuplicateMessage
  {
    SplitFresh(front, a);
    HistoryAccounts(front);
    LastIs(front, a);
    assert Accounts(After(front), a.call.key, SummaryOf(front, a.call.key));
    OpenAccounts(front, a, After(front), a.call.key, SummaryOf(front, a.call.key));
  }

  /** A call is refused for its round count exactly when the key's successes have used up the
      limit the key's first call set, and its message is not a duplicate. */
  lemma RefusedIffUsedUp(front: seq<Attempt>, a: Attempt)
    requires FreshIds(front + [a])
    requires a.call.message.None? || a.call.message.value !in Answered(front, a.call.key)
    ensures Last(front + [a]).result == RoundsExceeded <==>
            Successes(front, a.call.key) >= Opener(front, a).call.maxRounds
  {
    UnansweredRetries(front, a);
    SplitFresh(front, a);
    HistoryAccounts(front);
    LastIs(front, a);
    FirstOfSnoc(front, a, a.call.key);
    assert Accounts(After(front), a.call.key, SummaryOf(front, a.call.key));
  }
}
