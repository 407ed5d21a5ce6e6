/** The in-memory store, a dict by id and an index by natural key
    (engine/persistence/memory_store.py). */
module MemoryStore {
  import opened Sessions

  datatype Memory = Memory(
    byId: map<string, Session>,
    keyToId: map<Key, string>,
    processed: set<(string, string)>)
  {
    /** The key index never dangles. */
    ghost predicate Indexed() {
      forall k :: k in keyToId ==> keyToId[k] in byId
    }
  }

  const EMPTY := Memory(map[], map[], {})

  /** One call against the store's value. */
  function Step(m: Memory, op: Op): (r: (Memory, Answer))
    requires m.Indexed()
    ensures r.0.Indexed()
  {
    match op
    case GetOrCreate(key, backend, maxRounds, newId) =>
      if key in m.keyToId then (m, Found(m.byId[m.keyToId[key]]))
      else
        var s := NewSession(newId, key, backend, maxRounds);
        (m.(byId := m.byId[newId := s], keyToId := m.keyToId[key := newId]), Found(s))
    case Save(s) =>
      (m.(byId := m.byId[s.id := s], keyToId := m.keyToId[s.key := s.id]), Done)
    case IsProcessed(id, message) => (m, Flag((id, message) in m.processed))
    case MarkProcessed(id, message) => (m.(processed := m.processed + {(id, message)}), Done)
  }

  class MemorySessionStore {
    var byId: map<string, Session>
    var keyToId: map<Key, string>
    var processed: set<(string, string)>

    function Value(): Memory
      reads this
    {
      Memory(byId, keyToId, processed)
    }

    constructor ()
      ensures Value() == EMPTY
    {
      byId, keyToId, processed := map[], map[], {};
    }

    method GetOrCreate(key: Key, backend: string, maxRounds: int, newId: string) returns (s: Session)
      requires Value().Indexed()
      modifies this
      ensures (Value(), Found(s)) == Step(old(Value()), Op.GetOrCreate(key, backend, maxRounds, newId))
    {
      if key in keyToId {
        return byId[keyToId[key]];
      }
      s := NewSession(newId, key, backend, maxRounds);
      byId := byId[s.id := s];
      keyToId := keyToId[key := s.id];
    }

    method Save(s: Session)
      requires Value().Indexed()
      modifies this
      ensures Value() == Step(old(Value()), Op.Save(s)).0
    {
      byId := byId[s.id := s];
      keyToId := keyToId[s.key := s.id];
    }

    method IsProcessed(id: string, message: string) returns (b: bool)
      requires Value().Indexed()
      ensures (Value(), Flag(b)) == Step(Value(), Op.IsProcessed(id, message))
    {
      b := (id, message) in processed;
    }

    method MarkProcessed(id: string, message: string)
      requires Value().Indexed()
      modifies this
      ensures Value() == Step(old(Value()), Op.MarkProcessed(id, message)).0
    {
      processed := processed + {(id, message)};
    }
  }
}

/** The SQL stores: a table of session rows and one of processed messages
    (engine/persistence/sqlite_store.py, adapters/persistence/sqlalchemy/store.py). */
module RowStore {
  import opened Sessions
  import opened SessionTable

  datatype Database = Database(rows: seq<Session>, processed: set<(string, string)>)

  /** One call, alone on the database. `fk` says whether processed messages must refer to a
      session: sqlite3's schema has no such constraint, SQLAlchemy's has, and a violation is
      swallowed with the duplicate-key error. */
  function Step(db: Database, op: Op, fk: bool): (Database, Answer) {
    match op
    case GetOrCreate(key, backend, maxRounds, newId) =>
      var s := NewSession(newId, key, backend, maxRounds);
      (match Find(db.rows, key)
       case Some(r) => (db, Found(r))
       case None => if HasId(db.rows, newId) then (db, Done) else (db.(rows := db.rows + [s]), Found(s)))
    case Save(s) => (db.(rows := Update(db.rows, s)), Done)
    case IsProcessed(id, message) => (db, Flag((id, message) in db.processed))
    case MarkProcessed(id, message) =>
      (if fk && !HasId(db.rows, id) then db else db.(processed := db.processed + {(id, message)}), Done)
  }

  class SqliteSessionStore {
    var rows: seq<Session>
    var processed: set<(string, string)>

    function Value(): Database
      reads this
    {
      Database(rows, processed)
    }

    constructor ()
      ensures Value() == Database([], {})
    {
      rows, processed := [], {};
    }

    method GetOrCreate(key: Key, backend: string, maxRounds: int, newId: string) returns (s: Session)
      requires !HasId(rows, newId)
      modifies this
      ensures (Value(), Found(s)) == Step(old(Value()), Op.GetOrCreate(key, backend, maxRounds, newId), false)
    {
      var row := Find(rows, key);
      if row.Some? {
        return row.value;
      }
      s := NewSession(newId, key, backend, maxRounds);
      var inserted := Insert(rows, s);
      assert inserted.Some?;
      rows := inserted.value;
    }

    method Save(s: Session)
      modifies this
      ensures Value() == Step(old(Value()), Op.Save(s), false).0
    {
      rows := Update(rows, s);
    }

    method IsProcessed(id: string, message: string) returns (b: bool)
      ensures (Value(), Flag(b)) == Step(Value(), Op.IsProcessed(id, message), false)
    {
      b := (id, message) in processed;
    }

    method MarkProcessed(id: string, message: string)
      modifies this
      ensures Value() == Step(old(Value()), Op.MarkProcessed(id, message), false).0
    {
      processed := processed + {(id, message)};
    }
  }
}

/** The stores answer alike inside the contract, and exactly there. */
module StoreAgreement {
  import opened Sessions
  import opened SessionTable
  import MemoryStore
  import RowStore

  /** The two stores hold the same sessions and marks, and the memory indexes agree. */
  ghost predicate Agree(m: MemoryStore.Memory, db: RowStore.Database) {
    Unique(db.rows) && SameIndexes(m, db.rows) && AllHold(m, db.rows) && m.processed == db.processed
  }

  ghost predicate SameIndexes(m: MemoryStore.Memory, rows: seq<Session>) {
    && (forall id :: id in m.byId <==> HasId(rows, id))
    && (forall k :: k in m.keyToId <==> HasKey(rows, k))
  }

  ghost predicate AllHold(m: MemoryStore.Memory, rows: seq<Session>) {
    forall r :: r in rows ==> Holds(m, r)
  }

  ghost predicate Holds(m: MemoryStore.Memory, r: Session) {
    r.id in m.byId && m.byId[r.id] == r && r.key in m.keyToId && m.keyToId[r.key] == r.id
  }

  /** What a caller may do, given the sessions it was handed so far: draw fresh ids, save
      descendants of those sessions, mark messages of those sessions. */
  ghost predicate Permitted(op: Op, db: RowStore.Database, returned: set<Session>) {
    match op
    case GetOrCreate(_, _, _, newId) => !HasId(db.rows, newId)
    case Save(s) => exists base :: base in returned && Descends(base, s)
    case IsProcessed(_, _) => true
    case MarkProcessed(id, _) => exists base :: base in returned && base.id == id
  }

  function Hand(returned: set<Session>, a: Answer): set<Session> {
    if a.Found? then returned + {a.session} else returned
  }

  ghost predicate InScope(ops: seq<Op>, db: RowStore.Database, returned: set<Session>, fk: bool) {
    ops == [] ||
    (Permitted(ops[0], db, returned) &&
     var (db', a) := RowStore.Step(db, ops[0], fk);
     InScope(ops[1..], db', Hand(returned, a), fk))
  }

  function MemoryAnswers(ops: seq<Op>, m: MemoryStore.Memory): seq<Answer>
    requires m.Indexed()
  {
    if ops == [] then [] else var (m', a) := MemoryStore.Step(m, ops[0]); [a] + MemoryAnswers(ops[1..], m')
  }

  function RowAnswers(ops: seq<Op>, db: RowStore.Database, fk: bool): seq<Answer> {
    if ops == [] then [] else var (db', a) := RowStore.Step(db, ops[0], fk); [a] + RowAnswers(ops[1..], db', fk)
  }

  /** Every session handed out still has its row, with the same identity. */
  ghost predicate Known(returned: set<Session>, rows: seq<Session>) {
    forall s :: s in returned ==> HasRowFor(rows, s)
  }

  /** The memory store with `s` written to both indexes. */
  function Stored(m: MemoryStore.Memory, s: Session): MemoryStore.Memory {
    m.(byId := m.byId[s.id := s], keyToId := m.keyToId[s.key := s.id])
  }

  /** A row with another id and key stays as it is. */
  lemma OtherHolds(m: MemoryStore.Memory, s: Session, r: Session)
    requires Holds(m, r) && r.id != s.id && r.key != s.key
    ensures Holds(Stored(m, s), r)
  {
  }

  lemma ItselfHolds(m: MemoryStore.Memory, s: Session)
    ensures Holds(Stored(m, s), s)
  {
  }

  lemma InsertIndexes(m: MemoryStore.Memory, rows: seq<Session>, s: Session)
    requires SameIndexes(m, rows)
    ensures SameIndexes(Stored(m, s), rows + [s])
  {
    InsertedHas(rows, s);
  }

  lemma InsertHolds(m: MemoryStore.Memory, rows: seq<Session>, s: Session)
    requires AllHold(m, rows) && !HasId(rows, s.id) && !HasKey(rows, s.key)
    ensures AllHold(Stored(m, s), rows + [s])
  {
    forall r | r in rows + [s] ensures Holds(Stored(m, s), r) {
      if r in rows {
        OtherHolds(m, s, r);
      } else {
        ItselfHolds(m, s);
      }
    }
  }

  lemma InsertAgrees(m: MemoryStore.Memory, db: RowStore.Database, s: Session)
    requires Agree(m, db) && !HasId(db.rows, s.id) && !HasKey(db.rows, s.key)
    ensures Agree(Stored(m, s), db.(rows := db.rows + [s]))
  {
    InsertKeepsUnique(db.rows, s);
    InsertIndexes(m, db.rows, s);
    InsertHolds(m, db.rows, s);
  }

  lemma CreateAgrees(m: MemoryStore.Memory, db: RowStore.Database, op: Op, fk: bool)
    requires Agree(m, db) && m.Indexed() && op.GetOrCreate? && !HasId(db.rows, op.newId)
    ensures var (m', a), (db', b) := MemoryStore.Step(m, op), RowStore.Step(db, op, fk); a == b && Agree(m', db')
  {
    if HasKey(db.rows, op.key) {
      assert Holds(m, Find(db.rows, op.key).value);
    } else {
      InsertAgrees(m, db, NewSession(op.newId, op.key, op.backend, op.maxRounds));
    }
  }

  /** The row a save is meant for: same id, natural key and backend. */
  ghost predicate MatchingRow(rows: seq<Session>, s: Session, r: Session) {
    r in rows && r.id == s.id && r.key == s.key && r.backend == s.backend
  }

  lemma SavedRowHolds(m: MemoryStore.Memory, rows: seq<Session>, s: Session, r: Session, q: Session)
    requires Unique(rows) && AllHold(m, rows) && MatchingRow(rows, s, r) && q in Update(rows, s)
    ensures Holds(Stored(m, s), q)
  {
    UpdatedRow(rows, s, q);
    var p :| p in rows && q == if p.id == s.id then Patch(p, s) else p;
    if p.id == s.id || p.key == s.key {
      UniqueRow(rows, p, r);
      assert q == s;
      ItselfHolds(m, s);
    } else {
      OtherHolds(m, s, q);
    }
  }

  lemma SaveIndexes(m: MemoryStore.Memory, rows: seq<Session>, s: Session)
    requires SameIndexes(m, rows) && HasId(rows, s.id) && HasKey(rows, s.key)
    ensures SameIndexes(Stored(m, s), Update(rows, s))
  {
    UpdatedHas(rows, s);
  }

  lemma SaveAgrees(m: MemoryStore.Memory, db: RowStore.Database, s: Session, r: Session)
    requires Agree(m, db) && MatchingRow(db.rows, s, r)
    ensures Agree(Stored(m, s), db.(rows := Update(db.rows, s)))
  {
    UpdateKeepsUnique(db.rows, s);
    assert HasId(db.rows, s.id) && HasKey(db.rows, s.key);
    SaveIndexes(m, db.rows, s);
    forall q | q in Update(db.rows, s) ensures Holds(Stored(m, s), q) {
      SavedRowHolds(m, db.rows, s, r, q);
    }
  }

  lemma SaveDisagrees(m: MemoryStore.Memory, db: RowStore.Database, s: Session)
    requires Agree(m, db) && m.Indexed()
    requires Agree(MemoryStore.Step(m, Save(s)).0, db.(rows := Update(db.rows, s)))
    ensures exists r :: MatchingRow(db.rows, s, r)
  {
    var rows' := Update(db.rows, s);
    assert HasId(rows', s.id);
    var q :| q in rows' && q.id == s.id;
    assert Holds(MemoryStore.Step(m, Save(s)).0, q);
    UpdatedRow(db.rows, s, q);
    var p :| p in db.rows && q == if p.id == s.id then Patch(p, s) else p;
    assert MatchingRow(db.rows, s, p);
  }

  /** A save keeps the stores in agreement exactly when the table has a row with the saved
      session's id, natural key and backend: the upsert and the four-column update differ on
      every other session. */
  lemma SaveAgreesIff(m: MemoryStore.Memory, db: RowStore.Database, s: Session, fk: bool)
    requires Agree(m, db) && m.Indexed()
    ensures Agree(MemoryStore.Step(m, Save(s)).0, RowStore.Step(db, Save(s), fk).0) <==>
            exists r :: MatchingRow(db.rows, s, r)
  {
    if r :| MatchingRow(db.rows, s, r) {
      SaveAgrees(m, db, s, r);
    } else if Agree(MemoryStore.Step(m, Save(s)).0, db.(rows := Update(db.rows, s))) {
      SaveDisagrees(m, db, s);
    }
  }

  /** A mark keeps the stores in agreement exactly when the SQL store does not drop it: with an
      enforced foreign key, marks of unknown sessions are swallowed. */
  lemma MarkAgreesIff(m: MemoryStore.Memory, db: RowStore.Database, id: string, message: string, fk: bool)
    requires Agree(m, db) && m.Indexed()
    ensures var op := MarkProcessed(id, message);
      Agree(MemoryStore.Step(m, op).0, RowStore.Step(db, op, fk).0) <==>
            !fk || HasId(db.rows, id) || (id, message) in db.processed
  {
    var op := MarkProcessed(id, message);
    var m', db' := MemoryStore.Step(m, op).0, RowStore.Step(db, op, fk).0;
    forall r | r in db.rows ensures Holds(m', r) {
      assert Holds(m, r);
    }
    assert (id, message) in m'.processed;
  }

  /** A permitted save has its row, and loses none of the sessions handed out. */
  lemma SaveInScope(db: RowStore.Database, s: Session, returned: set<Session>)
    requires Unique(db.rows) && Known(returned, db.rows) && Permitted(Save(s), db, returned)
    ensures exists r :: MatchingRow(db.rows, s, r)
    ensures Known(returned, Update(db.rows, s))
  {
    var base :| base in returned && Descends(base, s);
    var turns :| Descend(base, turns) == s;
    DescendKeepsIdentity(base, turns);
    var q :| q in db.rows && q.SameIdentity(base);
    assert MatchingRow(db.rows, s, q);
    forall t | t in returned ensures HasRowFor(Update(db.rows, s), t) {
      var r :| r in db.rows && r.SameIdentity(t);
      UpdateRow(db.rows, s, r);
      if r.id == s.id {
        UniqueRow(db.rows, q, r);
      }
    }
  }

  lemma CreateKnown(db: RowStore.Database, op: Op, returned: set<Session>, fk: bool)
    requires Known(returned, db.rows) && op.GetOrCreate?
    ensures var (db', a) := RowStore.Step(db, op, fk); Known(Hand(returned, a), db'.rows)
  {
    var (db', a) := RowStore.Step(db, op, fk);
    forall t | t in returned ensures HasRowFor(db'.rows, t) {
      var r :| r in db.rows && r.SameIdentity(t);
      assert r in db'.rows;
    }
    if a.Found? {
      assert a.session in db'.rows && a.session.SameIdentity(a.session);
    }
  }

  /** A permitted mark names a session that has its row. */
  lemma MarkInScope(rows: seq<Session>, id: string, returned: set<Session>)
    requires Known(returned, rows) && exists base :: base in returned && base.id == id
    ensures HasId(rows, id)
  {
    var base :| base in returned && base.id == id;
    var q :| q in rows && q.SameIdentity(base);
  }

  lemma WriteAgrees(m: MemoryStore.Memory, db: RowStore.Database, op: Op, returned: set<Session>, fk: bool)
    requires Agree(m, db) && m.Indexed() && Known(returned, db.rows) && Permitted(op, db, returned)
    requires op.Save? || op.MarkProcessed?
    ensures Agree(MemoryStore.Step(m, op).0, RowStore.Step(db, op, fk).0)
    ensures Known(returned, RowStore.Step(db, op, fk).0.rows)
  {
    if op.Save? {
      SaveInScope(db, op.session, returned);
      SaveAgreesIff(m, db, op.session, fk);
    } else {
      MarkInScope(db.rows, op.id, returned);
      MarkAgreesIff(m, db, op.id, op.message, fk);
    }
  }

  /** One permitted call: equal answers, and agreement is kept. */
  lemma StepAgrees(m: MemoryStore.Memory, db: RowStore.Database, op: Op, returned: set<Session>, fk: bool)
    requires Agree(m, db) && m.Indexed() && Known(returned, db.rows) && Permitted(op, db, returned)
    ensures var (m', a), (db', b) := MemoryStore.Step(m, op), RowStore.Step(db, op, fk);
      a == b && Agree(m', db') && Known(Hand(returned, b), db'.rows)
  {
    if op.GetOrCreate? {
      CreateAgrees(m, db, op, fk);
      CreateKnown(db, op, returned, fk);
    } else if op.Save? || op.MarkProcessed? {
      WriteAgrees(m, db, op, returned, fk);
    }
  }

  /** Bisimulation: fed the same calls and the same fresh ids, the memory store and either SQL
      store give equal answers at every step, also to saves of stale sessions. */
  lemma {:induction false} StoresAgree(ops: seq<Op>, m: MemoryStore.Memory, db: RowStore.Database,
                                       returned: set<Session>, fk: bool)
    requires Agree(m, db) && m.Indexed() && Known(returned, db.rows) && InScope(ops, db, returned, fk)
    ensures MemoryAnswers(ops, m) == RowAnswers(ops, db, fk)
  {
    if ops != [] {
      var (m', a) := MemoryStore.Step(m, ops[0]);
      var (db', b) := RowStore.Step(db, ops[0], fk);
      StepAgrees(m, db, ops[0], returned, fk);
      StoresAgree(ops[1..], m', db', Hand(returned, b), fk);
    }
  }

  /** From empty stores. */
  lemma StoresAgreeFromStart(ops: seq<Op>, fk: bool)
    requires InScope(ops, RowStore.Database([], {}), {}, fk)
    ensures MemoryAnswers(ops, MemoryStore.EMPTY) == RowAnswers(ops, RowStore.Database([], {}), fk)
  {
    StoresAgree(ops, MemoryStore.EMPTY, RowStore.Database([], {}), {}, fk);
  }
}

/** What a call on a store says of the calls before it. */
module StoreLaws {
  import opened Wrappers
  import opened Runtime
  import opened Sessions
  import opened SessionTable
  import MemoryStore
  import RowStore

  function Asked(m: MemoryStore.Memory, op: Op, next: Op): Answer
    requires m.Indexed()
  {
    MemoryStore.Step(MemoryStore.Step(m, op).0, next).1
  }

  /** After a save to the memory store, the key finds the session saved, whatever it was before;
      other keys find what they found, with the new fields if that was the session saved. */
  lemma MemorySaveThenGet(m: MemoryStore.Memory, s: Session, key: Key, backend: string, maxRounds: int, newId: string)
    requires m.Indexed()
    ensures Asked(m, Save(s), GetOrCreate(key, backend, maxRounds, newId)) == Found(
      if key == s.key || (key in m.keyToId && m.keyToId[key] == s.id) then s
      else if key in m.keyToId then m.byId[m.keyToId[key]]
      else Session(newId, key, backend, Null, 0, maxRounds, 0.0))
  {
  }

  /** A session created is found again, whatever else is asked for with its key. */
  lemma MemoryCreateThenGet(m: MemoryStore.Memory, key: Key, backend: string, maxRounds: int, newId: string,
                            backend2: string, maxRounds2: int, newId2: string)
    requires m.Indexed()
    ensures Asked(m, GetOrCreate(key, backend, maxRounds, newId), GetOrCreate(key, backend2, maxRounds2, newId2)) ==
      Found(if key in m.keyToId then m.byId[m.keyToId[key]] else Session(newId, key, backend, Null, 0, maxRounds, 0.0))
  {
  }

  lemma MemoryMarkThenAsk(m: MemoryStore.Memory, id: string, message: string, id2: string, message2: string)
    requires m.Indexed()
    ensures Asked(m, MarkProcessed(id, message), IsProcessed(id2, message2)) ==
            Flag((id2 == id && message2 == message) || (id2, message2) in m.processed)
  {
  }

  function AskedRows(db: RowStore.Database, op: Op, next: Op, fk: bool): Answer {
    RowStore.Step(RowStore.Step(db, op, fk).0, next, fk).1
  }

  lemma FindUnique(rows: seq<Session>, r: Session)
    requires Unique(rows) && r in rows
    ensures Find(rows, r.key) == Some(r)
  {
    UniqueRow(rows, r, Find(rows, r.key).value);
  }

  /** After a save to a table, the key finds its row: with the handle, rounds, limit and time of the
      session saved if the ids agree, else as it was. */
  lemma RowSaveThenGet(db: RowStore.Database, s: Session, r: Session, backend: string, maxRounds: int, newId: string,
                       fk: bool)
    requires Unique(db.rows) && r in db.rows
    ensures AskedRows(db, Save(s), GetOrCreate(r.key, backend, maxRounds, newId), fk) == Found(
      if r.id == s.id then Session(r.id, r.key, r.backend, s.thread, s.rounds, s.maxRounds, s.lastActive) else r)
  {
    UpdateKeepsUnique(db.rows, s);
    UpdateRow(db.rows, s, r);
    FindUnique(Update(db.rows, s), if r.id == s.id then Patch(r, s) else r);
  }

  /** A row created is found again, whatever else is asked for with its key. */
  lemma RowCreateThenGet(db: RowStore.Database, key: Key, backend: string, maxRounds: int, newId: string,
                         backend2: string, maxRounds2: int, newId2: string, fk: bool)
    requires Unique(db.rows) && !HasKey(db.rows, key) && !HasId(db.rows, newId)
    ensures
      var first, again := GetOrCreate(key, backend, maxRounds, newId), GetOrCreate(key, backend2, maxRounds2, newId2);
      AskedRows(db, first, again, fk) == Found(Session(newId, key, backend, Null, 0, maxRounds, 0.0))
  {
    var s := NewSession(newId, key, backend, maxRounds);
    InsertKeepsUnique(db.rows, s);
    assert s in db.rows + [s];
    FindUnique(db.rows + [s], s);
  }

  /** A mark is found again, unless its session is missing and the foreign key enforced. */
  lemma RowMarkThenAsk(db: RowStore.Database, id: string, message: string, id2: string, message2: string, fk: bool)
    ensures AskedRows(db, MarkProcessed(id, message), IsProcessed(id2, message2), fk) ==
            Flag((id2 == id && message2 == message && (fk ==> HasId(db.rows, id))) || (id2, message2) in db.processed)
  {
  }
}
