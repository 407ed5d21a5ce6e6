/** What the session table abstracts to: a map from natural key to session, on which every call
    is atomic. */
module AtomicStore {
  import opened Wrappers
  import opened Sessions
  import opened SessionTable
  import RowStore

  datatype Atomic = Atomic(sessions: map<Key, Session>, processed: set<(string, string)>)

  const EMPTY := Atomic(map[], {})

  function Apply(a: Atomic, op: Op): (Atomic, Answer) {
    match op
    case GetOrCreate(key, backend, maxRounds, newId) =>
      if key in a.sessions then (a, Found(a.sessions[key]))
      else
        var s := NewSession(newId, key, backend, maxRounds);
        (a.(sessions := a.sessions[key := s]), Found(s))
    case Save(s) =>
      (a.(sessions := map k | k in a.sessions ::
                        if a.sessions[k].id == s.id then Patch(a.sessions[k], s) else a.sessions[k]), Done)
    case IsProcessed(id, message) => (a, Flag((id, message) in a.processed))
    case MarkProcessed(id, message) => (a.(processed := a.processed + {(id, message)}), Done)
  }

  /** `a` is the abstraction of a table whose natural keys are unique. */
  ghost predicate Abstracts(a: Atomic, db: RowStore.Database) {
    && (forall k :: k in a.sessions <==> HasKey(db.rows, k))
    && (forall r :: r in db.rows ==> r.key in a.sessions && a.sessions[r.key] == r)
    && a.processed == db.processed
  }

  lemma AbstractsFind(a: Atomic, db: RowStore.Database, key: Key)
    requires Abstracts(a, db)
    ensures Find(db.rows, key).Some? <==> key in a.sessions
    ensures key in a.sessions ==> Find(db.rows, key) == Some(a.sessions[key])
  {
  }

  lemma AbstractsInsert(a: Atomic, db: RowStore.Database, op: Op)
    requires Abstracts(a, db) && op.GetOrCreate? && !HasKey(db.rows, op.key)
    ensures Abstracts(Apply(a, op).0, db.(rows := db.rows + [NewSession(op.newId, op.key, op.backend, op.maxRounds)]))
  {
    InsertedHas(db.rows, NewSession(op.newId, op.key, op.backend, op.maxRounds));
    assert forall r :: r in db.rows ==> HasKey(db.rows, r.key);
  }

  lemma AbstractsUpdate(a: Atomic, db: RowStore.Database, s: Session)
    requires Abstracts(a, db)
    ensures Abstracts(Apply(a, Save(s)).0, db.(rows := Update(db.rows, s)))
  {
    UpdatedHas(db.rows, s);
    forall r | r in Update(db.rows, s)
      ensures r.key in a.sessions && Apply(a, Save(s)).0.sessions[r.key] == r
    {
      UpdatedRow(db.rows, s, r);
      var q :| q in db.rows && r == if q.id == s.id then Patch(q, s) else q;
    }
  }

  /** A logged call and the answer it got. */
  datatype Entry = Entry(op: Op, answer: Answer)

  /** The atomic store after a log. */
  function Replay(log: seq<Entry>): Atomic {
    if log == [] then EMPTY else Apply(Replay(log[..|log| - 1]), log[|log| - 1].op).0
  }

  /** Every answer in the log is the one the atomic store gives at that point. */
  ghost predicate Legal(log: seq<Entry>) {
    forall i :: 0 <= i < |log| ==> log[i].answer == Apply(Replay(log[..i]), log[i].op).1
  }

  /** The log is a legal history of the atomic store, and the table is what it leads to. */
  ghost predicate Refines(log: seq<Entry>, db: RowStore.Database) {
    Legal(log) && Abstracts(Replay(log), db)
  }

  lemma Extend(log: seq<Entry>, db: RowStore.Database, e: Entry, db': RowStore.Database)
    requires Refines(log, db)
    requires e.answer == Apply(Replay(log), e.op).1
    requires Abstracts(Apply(Replay(log), e.op).0, db')
    ensures Refines(log + [e], db')
  {
    var log' := log + [e];
    assert log'[..|log|] == log;
    forall i | 0 <= i < |log'| ensures log'[i].answer == Apply(Replay(log'[..i]), log'[i].op).1 {
      if i < |log| {
        assert log'[..i] == log[..i];
      }
    }
  }
}

/** Any number of clients running `ConversationService.handle` against one SQLAlchemy store
    (engine/orchestration/conversation.py, adapters/persistence/sqlalchemy/store.py). Every
    database transaction and every backend turn is one step; steps of different clients
    interleave freely, and a client may crash between any two. */
module SessionProtocol {
  import opened Wrappers
  import opened Runs
  import opened Runtime
  import opened Sessions
  import opened SessionTable
  import opened AtomicStore

  /** A call of `handle`; `since` is the length of the log when it was made. */
  datatype Call = Call(key: Key, backend: string, maxRounds: int, message: Option<string>, since: nat)

  datatype Client =
    | Idle
    | Selecting(call: Call)
    | Inserting(call: Call)
    | Reselecting(call: Call)
    | NotFound(call: Call)               // "session not found after concurrent insert"
    | Checking(call: Call, s: Session)   // get_or_create has returned
    | Turning(call: Call, s: Session)    // duplicate and round checks passed
    | Saving(call: Call, s: Session)     // the turn completed; s is the copy to save
    | Marking(call: Call, s: Session)
    | Crashed

  /** A completed get_or_create: what it returned, where it took effect in the log, and the
      length of the log when it returned. */
  datatype Handed = Handed(call: Call, s: Session, at: nat, until: nat)

  /** `drawn` holds the uuids in use: an insert draws another. `turns`, `saved`, `log` and `handed`
      record history; what steps read of them only goes into the history they extend. */
  datatype State = State(
    db: RowStore.Database,
    clients: map<nat, Client>,
    drawn: set<string>,
    turns: map<string, nat>,
    saved: set<(string, string)>,
    log: seq<Entry>,
    handed: seq<Handed>)

  const INITIAL := State(RowStore.Database([], {}), map[], {}, map[], {}, [], [])

  datatype Action =
    | Begin(c: nat, key: Key, backend: string, maxRounds: int, message: Option<string>)
    | Select(c: nat)
    | Insert(c: nat, uuid: string)
    | Reselect(c: nat)
    | Check(c: nat)
    | Turn(c: nat, thread: Json, now: real)
    | TurnFails(c: nat)
    | Save(c: nat)
    | Mark(c: nat)
    | Crash(c: nat)

  function ClientOf(st: State, c: nat): Client {
    if c in st.clients then st.clients[c] else Idle
  }

  function At(st: State, c: nat, cl: Client): State {
    st.(clients := st.clients[c := cl])
  }

  function TurnsOf(st: State, id: string): nat {
    if id in st.turns then st.turns[id] else 0
  }

  function OpOf(call: Call, uuid: string): Op {
    GetOrCreate(call.key, call.backend, call.maxRounds, uuid)
  }

  /** get_or_create takes effect and returns session `s`. */
  function Hand(st: State, c: nat, call: Call, uuid: string, s: Session): State {
    At(st, c, Checking(call, s)).(
      log := st.log + [Entry(OpOf(call, uuid), Found(s))],
      handed := st.handed + [Handed(call, s, |st.log|, |st.log| + 1)])
  }

  /** Phase 1: the existence check. */
  function DoSelect(st: State, c: nat, call: Call): State {
    match Find(st.db.rows, call.key)
    case Some(r) => Hand(st, c, call, "", r)
    case None => At(st, c, Inserting(call))
  }

  /** Phase 2: draw a uuid, unlike any drawn before, and insert; a constraint violation rolls
      the transaction back. */
  function DoInsert(st: State, c: nat, call: Call, uuid: string): State {
    var s := NewSession(uuid, call.key, call.backend, call.maxRounds);
    var st1 := st.(drawn := st.drawn + {uuid});
    match SessionTable.Insert(st.db.rows, s)
    case Some(rows) => Hand(st1.(db := st.db.(rows := rows)), c, call, uuid, s)
    case None => At(st1, c, Reselecting(call))
  }

  /** Phase 3: re-fetch the winner's row. */
  function DoReselect(st: State, c: nat, call: Call): State {
    match Find(st.db.rows, call.key)
    case Some(r) => Hand(st, c, call, "", r)
    case None => At(st, c, NotFound(call))
  }

  /** The duplicate check, if the message has an id, then the round check. */
  function DoCheck(st: State, c: nat, call: Call, s: Session): State {
    var next := At(st, c, if s.rounds >= s.maxRounds then Idle else Turning(call, s));
    match call.message
    case None => next
    case Some(m) =>
      var dup := (s.id, m) in st.db.processed;
      (if dup then At(st, c, Idle) else next).(log := st.log + [Entry(IsProcessed(s.id, m), Flag(dup))])
  }

  /** The backend completes a turn; the copy to save is made from what the client read. */
  function DoTurn(st: State, c: nat, call: Call, s: Session, thread: Json, now: real): State {
    At(st, c, Saving(call, s.WithTurn(thread, now))).(turns := st.turns[s.id := TurnsOf(st, s.id) + 1])
  }

  function DoSave(st: State, c: nat, call: Call, s: Session): State {
    At(st, c, if call.message.None? then Idle else Marking(call, s)).(
      db := st.db.(rows := Update(st.db.rows, s)),
      saved := if call.message.None? then st.saved else st.saved + {(s.id, call.message.value)},
      log := st.log + [Entry(Op.Save(s), Done)])
  }

  /** Processed messages refer to their session by a foreign key. */
  function DoMark(st: State, c: nat, s: Session, m: string): State {
    At(st, c, Idle).(
      db := RowStore.Step(st.db, MarkProcessed(s.id, m), true).0,
      log := st.log + [Entry(MarkProcessed(s.id, m), Done)])
  }

  /** One step. An action that is not enabled changes nothing. */
  function Step(st: State, a: Action): State {
    var cl := ClientOf(st, a.c);
    match a
    case Begin(c, key, backend, maxRounds, message) =>
      if cl.Idle? then At(st, c, Selecting(Call(key, backend, maxRounds, message, |st.log|))) else st
    case Select(c) => if cl.Selecting? then DoSelect(st, c, cl.call) else st
    case Insert(c, uuid) => if cl.Inserting? && uuid !in st.drawn then DoInsert(st, c, cl.call, uuid) else st
    case Reselect(c) => if cl.Reselecting? then DoReselect(st, c, cl.call) else st
    case Check(c) => if cl.Checking? then DoCheck(st, c, cl.call, cl.s) else st
    case Turn(c, thread, now) =>
      if cl.Turning? then DoTurn(st, c, cl.call, cl.s, thread, now) else st
    case TurnFails(c) => if cl.Turning? then At(st, c, Idle) else st
    case Save(c) => if cl.Saving? then DoSave(st, c, cl.call, cl.s) else st
    case Mark(c) => if cl.Marking? && cl.call.message.Some? then DoMark(st, c, cl.s, cl.call.message.value) else st
    case Crash(c) => At(st, c, Crashed)
  }

  function Run(st: State, actions: seq<Action>): State {
    StateAfter(Step, st, actions)
  }

  // ----- Invariants -----

  ghost predicate InBounds(st: State, s: Session) {
    && 0 <= s.rounds <= TurnsOf(st, s.id)
    && (s.rounds == 0 || s.rounds <= s.maxRounds)
  }

  ghost predicate TableOk(st: State) {
    && Unique(st.db.rows)
    && (forall r :: r in st.db.rows ==> r.id in st.drawn && InBounds(st, r))
    && st.db.processed <= st.saved
  }

  ghost predicate Snapshot(st: State, call: Call, s: Session) {
    s.key == call.key && HasRowFor(st.db.rows, s) && InBounds(st, s)
  }

  ghost predicate ClientOk(st: State, cl: Client) {
    match cl
    case Idle => true
    case Crashed => true
    case NotFound(_) => false
    case Selecting(call) => call.since <= |st.log|
    case Inserting(call) => call.since <= |st.log|
    case Reselecting(call) => call.since <= |st.log| && HasKey(st.db.rows, call.key)
    case Checking(call, s) => Snapshot(st, call, s)
    case Turning(call, s) => Snapshot(st, call, s) && s.rounds < s.maxRounds
    case Saving(call, s) => Snapshot(st, call, s)
    case Marking(call, s) => Snapshot(st, call, s) && call.message.Some? && (s.id, call.message.value) in st.saved
  }

  ghost predicate ClientsOk(st: State) {
    forall c :: ClientOk(st, ClientOf(st, c))
  }

  /** A completed get_or_create took effect once, between its call and its return. */
  ghost predicate HandedAt(st: State, h: Handed) {
    && h.call.since <= h.at < h.until <= |st.log|
    && st.log[h.at].answer == Found(h.s)
    && (exists uuid :: st.log[h.at].op == OpOf(h.call, uuid))
    && h.s.key == h.call.key && HasRowFor(st.db.rows, h.s)
  }

  ghost predicate HandedOk(st: State) {
    && (forall i :: 0 <= i < |st.handed| ==> HandedAt(st, st.handed[i]))
    && (forall i, j :: 0 <= i < j < |st.handed| ==> st.handed[i].at < st.handed[j].at)
  }

  ghost predicate Inv(st: State) {
    TableOk(st) && ClientsOk(st) && HandedOk(st) && Refines(st.log, st.db)
  }

  /** What every step keeps of what was there. */
  ghost predicate Evolves(st: State, st': State) {
    && (forall r :: r in st.db.rows ==> HasRowFor(st'.db.rows, r))
    && st.db.processed <= st'.db.processed
    && st.saved <= st'.saved
    && (forall id :: TurnsOf(st, id) <= TurnsOf(st', id))
    && st.log <= st'.log
    && st.handed <= st'.handed
  }

  lemma RowForEvolves(st: State, st': State, s: Session)
    requires Evolves(st, st') && HasRowFor(st.db.rows, s)
    ensures HasRowFor(st'.db.rows, s)
  {
    var r :| r in st.db.rows && r.SameIdentity(s);
    var r' :| r' in st'.db.rows && r'.SameIdentity(r);
  }

  lemma KeyEvolves(st: State, st': State, k: Key)
    requires Evolves(st, st') && HasKey(st.db.rows, k)
    ensures HasKey(st'.db.rows, k)
  {
    var r :| r in st.db.rows && r.key == k;
    var r' :| r' in st'.db.rows && r'.SameIdentity(r);
  }

  lemma ClientEvolves(st: State, st': State, cl: Client)
    requires Evolves(st, st') && ClientOk(st, cl)
    ensures ClientOk(st', cl)
  {
    if cl.Reselecting? {
      KeyEvolves(st, st', cl.call.key);
    } else if cl.Checking? || cl.Turning? || cl.Saving? || cl.Marking? {
      RowForEvolves(st, st', cl.s);
      assert TurnsOf(st, cl.s.id) <= TurnsOf(st', cl.s.id);
    }
  }

  /** A step moves one client; the others stay as they were and stay fine. */
  lemma OthersStayOk(st: State, st': State, c: nat)
    requires ClientsOk(st) && Evolves(st, st') && ClientOk(st', ClientOf(st', c))
    requires forall d :: d != c ==> ClientOf(st', d) == ClientOf(st, d)
    ensures ClientsOk(st')
  {
    forall d ensures ClientOk(st', ClientOf(st', d)) {
      if d != c {
        assert ClientOk(st, ClientOf(st, d));
        ClientEvolves(st, st', ClientOf(st, d));
      }
    }
  }

  lemma HandedStaysOk(st: State, st': State)
    requires HandedOk(st) && Evolves(st, st') && st'.handed == st.handed
    ensures HandedOk(st')
  {
    forall i | 0 <= i < |st'.handed| ensures HandedAt(st', st'.handed[i]) {
      var h := st.handed[i];
      assert HandedAt(st, h);
      RowForEvolves(st, st', h.s);
      assert st'.log[h.at] == st.log[h.at];
    }
  }

  /** get_or_create returns `s` from a state whose table already has the row for `s`. */
  lemma HandOk(st0: State, st: State, c: nat, call: Call, uuid: string, s: Session)
    requires HandedOk(st0) && ClientsOk(st0) && Evolves(st0, st)
    requires st.log == st0.log && st.handed == st0.handed && st.clients == st0.clients
    requires s in st.db.rows && s.key == call.key && InBounds(st, s) && call.since <= |st.log|
    ensures var st' := Hand(st, c, call, uuid, s); Evolves(st0, st') && ClientsOk(st') && HandedOk(st')
  {
    var st' := Hand(st, c, call, uuid, s);
    assert s.SameIdentity(s);
    assert HasRowFor(st'.db.rows, s);
    forall r | r in st0.db.rows ensures HasRowFor(st'.db.rows, r) {}
    forall id ensures TurnsOf(st0, id) <= TurnsOf(st', id) {}
    OthersStayOk(st0, st', c);
    HandedStaysOk(st0, st'.(handed := st0.handed));
    forall i | 0 <= i < |st'.handed| ensures HandedAt(st', st'.handed[i]) {
      if i < |st0.handed| {
        assert HandedAt(st'.(handed := st0.handed), st0.handed[i]);
      } else {
        assert st'.log[|st0.log|] == Entry(OpOf(call, uuid), Found(s));
      }
    }
    forall i, j | 0 <= i < j < |st'.handed| ensures st'.handed[i].at < st'.handed[j].at {
      assert HandedAt(st0, st0.handed[i]);
    }
  }

  // ----- Every step keeps the invariants -----

  /** A step that only moves a client, and perhaps draws a uuid. */
  lemma MoveKeeps(st: State, c: nat, cl: Client, drawn: set<string>)
    requires Inv(st) && ClientOk(st, cl) && st.drawn <= drawn
    ensures var st' := At(st, c, cl).(drawn := drawn); Inv(st') && Evolves(st, st')
  {
    var st' := At(st, c, cl).(drawn := drawn);
    SameRows(st, st');
    ClientEvolves(st, st', cl);
    OthersStayOk(st, st', c);
    HandedStaysOk(st, st');
  }

  lemma SameRows(st: State, st': State)
    requires st'.db.rows == st.db.rows
    ensures forall r :: r in st.db.rows ==> HasRowFor(st'.db.rows, r)
  {
    forall r | r in st.db.rows ensures HasRowFor(st'.db.rows, r) {
      assert r.SameIdentity(r);
    }
  }

  /** get_or_create finds its row, in phase 1 or phase 3. */
  lemma FindKeeps(st: State, c: nat, call: Call, r: Session)
    requires Inv(st) && call.since <= |st.log| && Find(st.db.rows, call.key) == Some(r)
    ensures var st' := Hand(st, c, call, "", r); Inv(st') && Evolves(st, st')
  {
    SameRows(st, st);
    HandOk(st, st, c, call, "", r);
    AbstractsFind(Replay(st.log), st.db, call.key);
    Extend(st.log, st.db, Entry(OpOf(call, ""), Found(r)), st.db);
  }

  lemma InsertedEvolves(st: State, st': State, s: Session)
    requires st'.db == st.db.(rows := st.db.rows + [s]) && st'.log == st.log && st'.handed == st.handed
    requires st'.saved == st.saved && st'.turns == st.turns
    ensures Evolves(st, st')
  {
    forall r | r in st.db.rows ensures HasRowFor(st'.db.rows, r) {
      assert r in st'.db.rows && r.SameIdentity(r);
    }
  }

  /** The table with the row of a new session. */
  function Inserted(st: State, s: Session): State {
    st.(drawn := st.drawn + {s.id}, db := st.db.(rows := st.db.rows + [s]))
  }

  lemma InsertedTable(st: State, s: Session)
    requires TableOk(st) && s.id !in st.drawn && !HasKey(st.db.rows, s.key) && s.rounds == 0
    ensures SessionTable.Insert(st.db.rows, s) == Some(st.db.rows + [s])
    ensures TableOk(Inserted(st, s)) && InBounds(Inserted(st, s), s)
  {
    assert !HasId(st.db.rows, s.id);
    InsertKeepsUnique(st.db.rows, s);
    forall r | r in st.db.rows ensures InBounds(Inserted(st, s), r) {
      assert InBounds(st, r);
    }
  }

  /** The table conditions only look at rows, uuids, turns and marks. */
  lemma SameTable(st: State, st': State)
    requires TableOk(st) && st'.db.rows == st.db.rows && st'.turns == st.turns
    requires st.drawn <= st'.drawn && st'.db.processed <= st'.saved
    ensures TableOk(st')
  {
    forall r | r in st'.db.rows ensures InBounds(st', r) {
      assert InBounds(st, r) && TurnsOf(st', r.id) == TurnsOf(st, r.id);
    }
  }

  lemma CreateKeeps(st: State, c: nat, call: Call, uuid: string)
    requires Inv(st) && call.since <= |st.log| && uuid !in st.drawn && !HasKey(st.db.rows, call.key)
    ensures var s := NewSession(uuid, call.key, call.backend, call.maxRounds);
      var st' := Hand(Inserted(st, s), c, call, uuid, s);
      Inv(st') && Evolves(st, st')
  {
    var s := NewSession(uuid, call.key, call.backend, call.maxRounds);
    var st1 := Inserted(st, s);
    InsertedTable(st, s);
    InsertedEvolves(st, st1, s);
    HandOk(st, st1, c, call, uuid, s);
    SameTable(st1, Hand(st1, c, call, uuid, s));
    CreateRefines(st.log, st.db, OpOf(call, uuid));
  }

  lemma CreateRefines(log: seq<Entry>, db: RowStore.Database, op: Op)
    requires Refines(log, db) && op.GetOrCreate? && !HasKey(db.rows, op.key)
    ensures var s := NewSession(op.newId, op.key, op.backend, op.maxRounds);
      Refines(log + [Entry(op, Found(s))], db.(rows := db.rows + [s]))
  {
    var s := NewSession(op.newId, op.key, op.backend, op.maxRounds);
    AbstractsInsert(Replay(log), db, op);
    Extend(log, db, Entry(op, Found(s)), db.(rows := db.rows + [s]));
  }

  lemma InsertKeeps(st: State, c: nat, call: Call, uuid: string)
    requires Inv(st) && ClientOf(st, c) == Inserting(call) && uuid !in st.drawn
    ensures var st' := DoInsert(st, c, call, uuid); Inv(st') && Evolves(st, st')
  {
    var s := NewSession(uuid, call.key, call.backend, call.maxRounds);
    assert ClientOk(st, ClientOf(st, c));
    if HasKey(st.db.rows, call.key) {
      MoveKeeps(st, c, Reselecting(call), st.drawn + {uuid});
    } else {
      InsertedTable(st, s);
      CreateKeeps(st, c, call, uuid);
      assert DoInsert(st, c, call, uuid) == Hand(Inserted(st, s), c, call, uuid, s);
    }
  }

  lemma CheckKeeps(st: State, c: nat, call: Call, s: Session)
    requires Inv(st) && ClientOf(st, c) == Checking(call, s)
    ensures var st' := DoCheck(st, c, call, s); Inv(st') && Evolves(st, st')
  {
    assert ClientOk(st, ClientOf(st, c));
    var dup := call.message.Some? && (s.id, call.message.value) in st.db.processed;
    var next := if dup || s.rounds >= s.maxRounds then Idle else Turning(call, s);
    var mid := At(st, c, next).(drawn := st.drawn);
    MoveKeeps(st, c, next, st.drawn);
    if call.message.Some? {
      LoggedCheck(st, mid, s.id, call.message.value);
    }
  }

  lemma LoggedCheck(st: State, mid: State, id: string, m: string)
    requires Inv(mid) && Evolves(st, mid)
    ensures var st' := mid.(log := mid.log + [Entry(IsProcessed(id, m), Flag((id, m) in mid.db.processed))]);
      Inv(st') && Evolves(st, st')
  {
    var e := Entry(IsProcessed(id, m), Flag((id, m) in mid.db.processed));
    LogKeeps(mid, e);
    EvolvesTransitive(st, mid, mid.(log := mid.log + [e]));
  }

  /** Logging a call that changes nothing. */
  lemma LogKeeps(st: State, e: Entry)
    requires Inv(st) && e.answer == Apply(Replay(st.log), e.op).1 && Abstracts(Apply(Replay(st.log), e.op).0, st.db)
    ensures var st' := st.(log := st.log + [e]); Inv(st') && Evolves(st, st')
  {
    var st' := st.(log := st.log + [e]);
    SameRows(st, st');
    Extend(st.log, st.db, e, st.db);
    HandedStaysOk(st, st');
    forall d ensures ClientOk(st', ClientOf(st', d)) {
      assert ClientOk(st, ClientOf(st, d));
      ClientEvolves(st, st', ClientOf(st, d));
    }
  }

  lemma EvolvesTransitive(a: State, b: State, c: State)
    requires Evolves(a, b) && Evolves(b, c)
    ensures Evolves(a, c)
  {
    forall r | r in a.db.rows ensures HasRowFor(c.db.rows, r) {
      RowForEvolves(b, c, r);
    }
    forall id ensures TurnsOf(a, id) <= TurnsOf(c, id) {
      assert TurnsOf(a, id) <= TurnsOf(b, id) <= TurnsOf(c, id);
    }
  }

  lemma TurnKeeps(st: State, c: nat, call: Call, s: Session, thread: Json, now: real)
    requires Inv(st) && ClientOf(st, c) == Turning(call, s)
    ensures var st' := DoTurn(st, c, call, s, thread, now); Inv(st') && Evolves(st, st')
  {
    var st' := DoTurn(st, c, call, s, thread, now);
    assert ClientOk(st, ClientOf(st, c));
    SameRows(st, st');
    TurnedSnapshot(st, st', call, s, thread, now);
    OthersStayOk(st, st', c);
    HandedStaysOk(st, st');
    forall r | r in st'.db.rows ensures r.id in st'.drawn && InBounds(st', r) {
      assert InBounds(st, r);
    }
  }

  lemma TurnedSnapshot(st: State, st': State, call: Call, s: Session, thread: Json, now: real)
    requires Snapshot(st, call, s) && s.rounds < s.maxRounds
    requires st'.db == st.db && TurnsOf(st', s.id) == TurnsOf(st, s.id) + 1
    ensures Snapshot(st', call, s.WithTurn(thread, now))
  {
    var r :| r in st.db.rows && r.SameIdentity(s);
    assert r.SameIdentity(s.WithTurn(thread, now));
  }

  /** A save replaces its session's row by the saved copy, and no other. */
  lemma SaveRows(st: State, s: Session)
    requires TableOk(st) && HasRowFor(st.db.rows, s) && InBounds(st, s)
    ensures s in Update(st.db.rows, s)
    ensures forall r :: r in Update(st.db.rows, s) ==> r == s || r in st.db.rows
    ensures forall r :: r in st.db.rows ==> HasRowFor(Update(st.db.rows, s), r)
  {
    var q :| q in st.db.rows && q.SameIdentity(s);
    UpdateRow(st.db.rows, s, q);
    assert Patch(q, s) == s;
    forall r | r in Update(st.db.rows, s) ensures r == s || r in st.db.rows {
      UpdatedRow(st.db.rows, s, r);
      var p :| p in st.db.rows && r == if p.id == s.id then Patch(p, s) else p;
      if p.id == s.id {
        UniqueRow(st.db.rows, p, q);
      }
    }
    forall r | r in st.db.rows ensures HasRowFor(Update(st.db.rows, s), r) {
      UpdateRow(st.db.rows, s, r);
      if r.id == s.id {
        UniqueRow(st.db.rows, r, q);
      }
      assert r.SameIdentity(if r.id == s.id then s else r);
    }
  }

  lemma SavedBounds(st: State, st': State, s: Session)
    requires TableOk(st) && HasRowFor(st.db.rows, s) && InBounds(st, s)
    requires st'.db.rows == Update(st.db.rows, s) && st'.drawn == st.drawn && st'.turns == st.turns
    ensures forall r :: r in st'.db.rows ==> r.id in st'.drawn && InBounds(st', r)
  {
    SaveRows(st, s);
    var q :| q in st.db.rows && q.SameIdentity(s);
    forall r | r in st'.db.rows ensures r.id in st'.drawn && InBounds(st', r) {
      assert r == s || InBounds(st, r);
    }
  }

  lemma SaveTable(st: State, st': State, s: Session)
    requires TableOk(st) && HasRowFor(st.db.rows, s) && InBounds(st, s)
    requires st'.db == st.db.(rows := Update(st.db.rows, s))
    requires st'.drawn == st.drawn && st'.turns == st.turns && st.saved <= st'.saved
    requires st.log <= st'.log && st.handed <= st'.handed
    ensures TableOk(st') && Evolves(st, st')
  {
    SaveRows(st, s);
    UpdateKeepsUnique(st.db.rows, s);
    SavedBounds(st, st', s);
  }

  lemma SaveKeeps(st: State, c: nat, call: Call, s: Session)
    requires Inv(st) && ClientOf(st, c) == Saving(call, s)
    ensures var st' := DoSave(st, c, call, s); Inv(st') && Evolves(st, st')
  {
    var st' := DoSave(st, c, call, s);
    assert ClientOk(st, ClientOf(st, c));
    SaveTable(st, st', s);
    ClientEvolves(st, st', Saving(call, s));
    OthersStayOk(st, st', c);
    HandedStaysOk(st, st');
    AbstractsUpdate(Replay(st.log), st.db, s);
    Extend(st.log, st.db, Entry(Op.Save(s), Done), st'.db);
  }

  lemma MarkRefines(log: seq<Entry>, db: RowStore.Database, id: string, m: string)
    requires Refines(log, db) && HasId(db.rows, id)
    ensures Refines(log + [Entry(MarkProcessed(id, m), Done)], RowStore.Step(db, MarkProcessed(id, m), true).0)
  {
    Extend(log, db, Entry(MarkProcessed(id, m), Done), RowStore.Step(db, MarkProcessed(id, m), true).0);
  }

  lemma MarkEvolves(st: State, c: nat, s: Session, m: string)
    requires ClientsOk(st) && HandedOk(st) && HasId(st.db.rows, s.id)
    ensures var st' := DoMark(st, c, s, m); Evolves(st, st') && ClientsOk(st') && HandedOk(st')
  {
    var st' := DoMark(st, c, s, m);
    assert Evolves(st, st') by {
      SameRows(st, st');
    }
    assert ClientsOk(st') by {
      OthersStayOk(st, st', c);
    }
    HandedStaysOk(st, st');
  }

  lemma MarkKeeps(st: State, c: nat, call: Call, s: Session, m: string)
    requires Inv(st) && ClientOf(st, c) == Marking(call, s) && call.message == Some(m)
    ensures var st' := DoMark(st, c, s, m); Inv(st') && Evolves(st, st')
  {
    assert ClientOk(st, ClientOf(st, c));
    var q :| q in st.db.rows && q.SameIdentity(s);
    assert HasId(st.db.rows, s.id);
    MarkEvolves(st, c, s, m);
    SameTable(st, DoMark(st, c, s, m));
    MarkRefines(st.log, st.db, s.id, m);
  }

  /** Steps of get_or_create. */
  lemma LookupKeeps(st: State, a: Action)
    requires Inv(st) && (a.Select? || a.Insert? || a.Reselect?)
    ensures Inv(Step(st, a)) && Evolves(st, Step(st, a))
  {
    var cl := ClientOf(st, a.c);
    assert ClientOk(st, cl);
    SameRows(st, st);
    if a.Select? && cl.Selecting? {
      match Find(st.db.rows, cl.call.key)
      case Some(r) => FindKeeps(st, a.c, cl.call, r);
      case None => MoveKeeps(st, a.c, Inserting(cl.call), st.drawn);
    } else if a.Insert? && cl.Inserting? && a.uuid !in st.drawn {
      InsertKeeps(st, a.c, cl.call, a.uuid);
    } else if a.Reselect? && cl.Reselecting? {
      FindKeeps(st, a.c, cl.call, Find(st.db.rows, cl.call.key).value);
    }
  }

  lemma CheckStepKeeps(st: State, a: Action)
    requires Inv(st) && a.Check?
    ensures Inv(Step(st, a)) && Evolves(st, Step(st, a))
  {
    if ClientOf(st, a.c).Checking? {
      CheckKeeps(st, a.c, ClientOf(st, a.c).call, ClientOf(st, a.c).s);
    } else {
      SameRows(st, st);
    }
  }

  lemma TurnStepKeeps(st: State, a: Action)
    requires Inv(st) && a.Turn?
    ensures Inv(Step(st, a)) && Evolves(st, Step(st, a))
  {
    if ClientOf(st, a.c).Turning? {
      TurnKeeps(st, a.c, ClientOf(st, a.c).call, ClientOf(st, a.c).s, a.thread, a.now);
    } else {
      SameRows(st, st);
    }
  }

  lemma WriteStepKeeps(st: State, a: Action)
    requires Inv(st) && (a.Save? || a.Mark?)
    ensures Inv(Step(st, a)) && Evolves(st, Step(st, a))
  {
    var cl := ClientOf(st, a.c);
    if a.Save? && cl.Saving? {
      SaveKeeps(st, a.c, cl.call, cl.s);
    } else if a.Mark? && cl.Marking? && cl.call.message.Some? {
      MarkKeeps(st, a.c, cl.call, cl.s, cl.call.message.value);
    } else {
      SameRows(st, st);
    }
  }

  lemma StepKeeps(st: State, a: Action)
    requires Inv(st)
    ensures Inv(Step(st, a)) && Evolves(st, Step(st, a))
  {
    if a.Select? || a.Insert? || a.Reselect? {
      LookupKeeps(st, a);
    } else if a.Check? {
      CheckStepKeeps(st, a);
    } else if a.Turn? {
      TurnStepKeeps(st, a);
    } else if a.Save? || a.Mark? {
      WriteStepKeeps(st, a);
    } else {
      SameRows(st, st);
      var next := if a.Begin? then Selecting(Call(a.key, a.backend, a.maxRounds, a.message, |st.log|))
                  else if a.Crash? then Crashed else Idle;
      MoveKeeps(st, a.c, next, st.drawn);
    }
  }

  lemma {:induction false} RunKeeps(st: State, actions: seq<Action>)
    requires Inv(st)
    ensures Inv(Run(st, actions)) && Evolves(st, Run(st, actions))
  {
    if actions == [] {
      SameRows(st, st);
    } else {
      var last, action := Run(st, actions[..|actions| - 1]), actions[|actions| - 1];
      RunKeeps(st, actions[..|actions| - 1]);
      StepKeeps(last, action);
      EvolvesTransitive(st, last, Step(last, action));
    }
  }

  // ----- What every run from the empty store guarantees -----

  lemma Reachable(actions: seq<Action>)
    ensures Inv(Run(INITIAL, actions))
  {
    assert Inv(INITIAL);
    RunKeeps(INITIAL, actions);
  }

  /** The client goes on with the key's row. */
  ghost predicate GoesOnWithRow(st: State, st': State, c: nat, call: Call) {
    ClientOf(st', c).Checking? && ClientOf(st', c).call == call && st'.db == st.db &&
    ClientOf(st', c).s in st.db.rows && ClientOf(st', c).s.key == call.key
  }

  /** `get_or_create` in any reachable state, transaction by transaction: the look-up goes on with the
      key's row if there is one; the insert adds one if there still is none; the second look-up, which
      others' commits have made necessary, always finds it. */
  lemma GetGoesOn(actions: seq<Action>, c: nat, uuid: string)
    ensures var st := Run(INITIAL, actions);
      match ClientOf(st, c)
      case Selecting(call) =>
        if HasKey(st.db.rows, call.key) then GoesOnWithRow(st, Step(st, Select(c)), c, call)
        else Step(st, Select(c)).db == st.db && ClientOf(Step(st, Select(c)), c) == Inserting(call)
      case Inserting(call) =>
        uuid !in st.drawn ==>
          var s, st' := Session(uuid, call.key, call.backend, Null, 0, call.maxRounds, 0.0), Step(st, Insert(c, uuid));
          if HasKey(st.db.rows, call.key) then st'.db == st.db && ClientOf(st', c) == Reselecting(call)
          else st'.db == st.db.(rows := st.db.rows + [s]) && ClientOf(st', c) == Checking(call, s)
      case Reselecting(call) => GoesOnWithRow(st, Step(st, Reselect(c)), c, call)
      case _ => true
  {
    var st := Run(INITIAL, actions);
    Reachable(actions);
    assert ClientOk(st, ClientOf(st, c));
    assert HasId(st.db.rows, uuid) ==> uuid in st.drawn;
  }

  /** Linearizability: over every interleaving, with crashes anywhere, the committed calls are a
      legal history of the atomic store and the table is what that history leads to; each
      completed get_or_create appears in it with its own answer, between its call and its
      return, so that calls that do not overlap keep their order; the table has one row per
      natural key; and the "not found after concurrent insert" error is never reached. */
  lemma Linearizable(actions: seq<Action>)
    ensures var st := Run(INITIAL, actions);
      && Refines(st.log, st.db)
      && (forall h :: h in st.handed ==> HandedAt(st, h))
      && (forall i, j :: 0 <= i < j < |st.handed| ==> st.handed[i].at < st.handed[j].at)
      && (forall h, g :: h in st.handed && g in st.handed && h.until <= g.call.since ==> h.at < g.at)
      && Unique(st.db.rows)
      && (forall c :: !ClientOf(st, c).NotFound?)
  {
    Reachable(actions);
    var st := Run(INITIAL, actions);
    forall h | h in st.handed ensures HandedAt(st, h) {
      var i :| 0 <= i < |st.handed| && st.handed[i] == h;
    }
    forall c ensures !ClientOf(st, c).NotFound? {
      assert ClientOk(st, ClientOf(st, c));
    }
  }

  /** All completed calls on one natural key agree on id, backend and round limit: the first
      creator's. */
  lemma CallsAgree(actions: seq<Action>, h: Handed, g: Handed)
    requires h in Run(INITIAL, actions).handed && g in Run(INITIAL, actions).handed
    requires h.call.key == g.call.key
    ensures h.s.SameIdentity(g.s)
  {
    Linearizable(actions);
    var rows := Run(INITIAL, actions).db.rows;
    var r :| r in rows && r.SameIdentity(h.s);
    var q :| q in rows && q.SameIdentity(g.s);
    UniqueRow(rows, r, q);
  }

  /** Rounds stay within bounds even when a stale save loses an increment: no row exceeds its
      limit or the backend turns completed for it. And a message is processed only after a turn
      it paid for was saved. */
  lemma RoundsBounded(actions: seq<Action>)
    ensures var st := Run(INITIAL, actions);
      && (forall r :: r in st.db.rows ==> 0 <= r.rounds <= TurnsOf(st, r.id))
      && (forall r :: r in st.db.rows && 0 <= r.maxRounds ==> r.rounds <= r.maxRounds)
      && (forall r :: r in st.db.rows && r.maxRounds < 0 ==> r.rounds == 0)
      && st.db.processed <= st.saved
  {
    Reachable(actions);
    var st := Run(INITIAL, actions);
    forall r | r in st.db.rows ensures InBounds(st, r) {}
  }

  /** From any point of any run on: no row is lost, none changes its id, natural key, backend or
      limit, and no processed mark is taken back. */
  lemma IdentityForever(before: seq<Action>, after: seq<Action>, r: Session)
    requires r in Run(INITIAL, before).db.rows
    ensures HasRowFor(Run(INITIAL, before + after).db.rows, r)
    ensures Run(INITIAL, before).db.processed <= Run(INITIAL, before + after).db.processed
  {
    Reachable(before);
    RunKeeps(Run(INITIAL, before), after);
    StateAfterSplits(Step, INITIAL, before, after);
  }

  /** Two clients call; the first creates the session, then the second finds it. */
  function RaceToCheck(key: Key, backend: string): State {
    var a := Step(Step(INITIAL, Begin(0, key, backend, 50, None)), Begin(1, key, backend, 50, None));
    Step(Step(Step(a, Select(0)), Insert(0, "u")), Select(1))
  }

  /** Both pass the checks and complete a turn. */
  function RaceToSave(key: Key, backend: string): State {
    var b := Step(Step(RaceToCheck(key, backend), Check(0)), Check(1));
    Step(Step(b, Turn(0, Null, 1.0)), Turn(1, Null, 2.0))
  }

  function RaceCall(key: Key, backend: string): Call {
    Call(key, backend, 50, None, 0)
  }

  lemma RaceReachesCheck(key: Key, backend: string)
    ensures var st, call, s := RaceToCheck(key, backend), RaceCall(key, backend), NewSession("u", key, backend, 50);
      && st.db.rows == [s] && st.turns == map[]
      && ClientOf(st, 0) == Checking(call, s) && ClientOf(st, 1) == Checking(call, s)
  {
    var call, s := RaceCall(key, backend), NewSession("u", key, backend, 50);
    var a := Step(Step(INITIAL, Begin(0, key, backend, 50, None)), Begin(1, key, backend, 50, None));
    assert ClientOf(a, 0) == Selecting(call) && ClientOf(a, 1) == Selecting(call) && a.db.rows == [];
    var b := Step(a, Select(0));
    assert ClientOf(b, 0) == Inserting(call) && ClientOf(b, 1) == Selecting(call) && b.db.rows == [];
    var c := Step(b, Insert(0, "u"));
    assert ClientOf(c, 0) == Checking(call, s) && ClientOf(c, 1) == Selecting(call) && c.db.rows == [s];
    assert Find([s], key) == Some(s);
  }

  /** Without a message id, the check only looks at the rounds. */
  lemma CheckPasses(st: State, c: nat, call: Call, s: Session)
    requires ClientOf(st, c) == Checking(call, s) && call.message.None? && s.rounds < s.maxRounds
    ensures Step(st, Check(c)) == At(st, c, Turning(call, s))
  {
  }

  lemma TurnCompletes(st: State, c: nat, call: Call, s: Session, now: real)
    requires ClientOf(st, c) == Turning(call, s)
    ensures var next := Step(st, Turn(c, Null, now));
      && next.db == st.db && TurnsOf(next, s.id) == TurnsOf(st, s.id) + 1
      && ClientOf(next, c) == Saving(call, s.WithTurn(Null, now))
      && forall d :: d != c ==> ClientOf(next, d) == ClientOf(st, d)
  {
  }

  lemma RaceReachesSave(key: Key, backend: string)
    ensures var st, call, s := RaceToSave(key, backend), RaceCall(key, backend), NewSession("u", key, backend, 50);
      && st.db.rows == [s] && TurnsOf(st, "u") == 2
      && ClientOf(st, 0) == Saving(call, s.WithTurn(Null, 1.0))
      && ClientOf(st, 1) == Saving(call, s.WithTurn(Null, 2.0))
  {
    var call, s := RaceCall(key, backend), NewSession("u", key, backend, 50);
    var a := RaceToCheck(key, backend);
    RaceReachesCheck(key, backend);
    CheckPasses(a, 0, call, s);
    var b := At(a, 0, Turning(call, s));
    CheckPasses(b, 1, call, s);
    var c := At(b, 1, Turning(call, s));
    TurnCompletes(c, 0, call, s, 1.0);
    TurnCompletes(Step(c, Turn(0, Null, 1.0)), 1, call, s, 2.0);
  }

  /** A save to a store with one row replaces it and leaves the other clients where they were. */
  lemma SaveReplaces(st: State, c: nat, call: Call, row: Session, saved: Session)
    requires st.db.rows == [row] && row.SameIdentity(saved)
    requires ClientOf(st, c) == Saving(call, saved) && call.message.None?
    ensures var next := Step(st, Action.Save(c));
      && next.db.rows == [saved] && next.turns == st.turns && ClientOf(next, c).Idle?
      && forall d :: d != c ==> ClientOf(next, d) == ClientOf(st, d)
  {
    assert Patch(row, saved) == saved;
  }

  /** Increments can be lost: two clients that both read round 0 leave one round after two
      completed turns and two saves. */
  lemma StaleSaveLosesRound(key: Key, backend: string)
    ensures var st := Step(Step(RaceToSave(key, backend), Action.Save(0)), Action.Save(1));
      && |st.db.rows| == 1 && st.db.rows[0].rounds == 1 && TurnsOf(st, st.db.rows[0].id) == 2
      && ClientOf(st, 0).Idle? && ClientOf(st, 1).Idle?
  {
    var call, s := RaceCall(key, backend), NewSession("u", key, backend, 50);
    var st := RaceToSave(key, backend);
    RaceReachesSave(key, backend);
    SaveReplaces(st, 0, call, s, s.WithTurn(Null, 1.0));
    SaveReplaces(Step(st, Action.Save(0)), 1, call, s.WithTurn(Null, 1.0), s.WithTurn(Null, 2.0));
  }
}
