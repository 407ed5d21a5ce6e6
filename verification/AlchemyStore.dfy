/** `SQLAlchemySessionStore.get_or_create` as one client runs it, with the calls that other
    clients commit between its transactions
    (adapters/persistence/sqlalchemy/store.py). */
module AlchemyStore {
  import opened Wrappers
  import opened Runtime
  import opened Sessions
  import opened SessionTable
  import opened RowStore

  /** The database after a run of committed calls. */
  function Committed(db: Database, ops: seq<Op>): Database
    decreases |ops|
  {
    if ops == [] then db else Committed(Step(db, ops[0], true).0, ops[1..])
  }

  /** Uuids are drawn once. */
  ghost predicate NeverDraws(ops: seq<Op>, uuid: string) {
    forall op :: op in ops && op.GetOrCreate? ==> op.newId != uuid
  }

  lemma StepKeepsTable(db: Database, op: Op)
    requires Unique(db.rows)
    ensures var rows' := Step(db, op, true).0.rows;
      && Unique(rows')
      && (forall k :: HasKey(db.rows, k) ==> HasKey(rows', k))
      && (forall id :: HasId(rows', id) ==> HasId(db.rows, id) || (op.GetOrCreate? && id == op.newId))
  {
    if op.GetOrCreate? {
      var s := NewSession(op.newId, op.key, op.backend, op.maxRounds);
      InsertedHas(db.rows, s);
      if SessionTable.Insert(db.rows, s).Some? {
        InsertKeepsUnique(db.rows, s);
      }
    } else if op.Save? {
      UpdatedHas(db.rows, op.session);
      UpdateKeepsUnique(db.rows, op.session);
    }
  }

  lemma {:induction false} CommittedKeepsTable(db: Database, ops: seq<Op>, uuid: string)
    requires Unique(db.rows) && !HasId(db.rows, uuid) && NeverDraws(ops, uuid)
    ensures var rows' := Committed(db, ops).rows;
      && Unique(rows')
      && !HasId(rows', uuid)
      && (forall k :: HasKey(db.rows, k) ==> HasKey(rows', k))
    decreases |ops|
  {
    if ops != [] {
      StepKeepsTable(db, ops[0]);
      CommittedKeepsTable(Step(db, ops[0], true).0, ops[1..], uuid);
    }
  }

  /** `_validate_field`: neither empty nor longer than the column (validation.py). */
  predicate FieldOk(value: string, cap: nat) {
    value != "" && |value| <= cap
  }

  /** A resume handle is a string or absent; nothing else can be bound to its column. */
  predicate HandleOk(thread: Json) {
    thread == Null || (thread.Str? && FieldOk(thread.s, 256))
  }

  /** The arguments that get past validation; the others raise ValueError. */
  predicate FieldsOk(op: Op) {
    match op
    case GetOrCreate(key, backend, _, _) =>
      FieldOk(key.workspace, 128) && FieldOk(key.channel, 64) && FieldOk(key.thread, 256) && FieldOk(backend, 64)
    case Save(s) => FieldOk(s.id, 64) && HandleOk(s.thread)
    case IsProcessed(id, message) => FieldOk(id, 64) && FieldOk(message, 256)
    case MarkProcessed(id, message) => FieldOk(id, 64) && FieldOk(message, 256)
  }

  /** The widths of the string columns (schema.py). */
  function Width(column: string): nat {
    if column == "workspace_id" then 128
    else if column == "external_thread_key" || column == "backend_thread_id" || column == "message_id" then 256
    else 64
  }

  predicate FitsColumn(column: string, value: string) {
    1 <= |value| <= Width(column)
  }

  /** The arguments that pass are exactly those that are not empty and fit their columns, each of
      them. */
  lemma FieldsFitColumns(op: Op)
    ensures FieldsOk(op) <==>
      match op
      case GetOrCreate(key, backend, _, _) =>
        && FitsColumn("workspace_id", key.workspace) && FitsColumn("channel", key.channel)
        && FitsColumn("external_thread_key", key.thread) && FitsColumn("backend_name", backend)
      case Save(s) =>
        && FitsColumn("session_id", s.id)
        && (s.thread == Null || (s.thread.Str? && FitsColumn("backend_thread_id", s.thread.s)))
      case IsProcessed(id, message) => FitsColumn("session_id", id) && FitsColumn("message_id", message)
      case MarkProcessed(id, message) => FitsColumn("session_id", id) && FitsColumn("message_id", message)
  {
  }

  /** How `get_or_create` ends: with a session, with a ValueError, or with the "session not found
      after concurrent insert" error. */
  datatype Got = Got(s: Session) | Invalid | Vanished

  /** The call has taken effect in one piece at the moment the database was `before`. */
  ghost predicate Atomically(before: Database, op: Op, after: Database, s: Session) {
    Step(before, op, true) == (after, Found(s))
  }

  class SQLAlchemySessionStore {
    var rows: seq<Session>
    var processed: set<(string, string)>

    function Value(): Database
      reads this
    {
      Database(rows, processed)
    }

    constructor ()
      ensures Value() == Database([], {})
    {
      rows, processed := [], {};
    }

    /** Other clients commit `ops`. */
    method Interfere(ops: seq<Op>)
      modifies this
      ensures Value() == Committed(old(Value()), ops)
    {
      var db := Value();
      for i := 0 to |ops|
        invariant Committed(db, ops[i..]) == Committed(old(Value()), ops)
      {
        assert ops[i..][1..] == ops[i + 1..];
        db := Step(db, ops[i], true).0;
      }
      rows, processed := db.rows, db.processed;
    }

    /** Validation, then three transactions: look up, insert, and after a constraint violation look
        up again, with other clients' calls between them. The call never ends in the "not found"
        error, invalid arguments change nothing, and otherwise it is atomic at one of its
        transactions. */
    method GetOrCreate(key: Key, backend: string, maxRounds: int, uuid: string,
                       between1: seq<Op>, between2: seq<Op>) returns (r: Got)
      requires Unique(rows) && !HasId(rows, uuid) && NeverDraws(between1 + between2, uuid)
      modifies this
      ensures !r.Vanished? && Unique(rows)
      ensures var op, db0 := Op.GetOrCreate(key, backend, maxRounds, uuid), old(Value());
        if !FieldsOk(op) then r.Invalid? && Value() == db0
        else
          && r.Got?
          && (|| Atomically(db0, op, Value(), r.s)
              || Atomically(Committed(db0, between1), op, Value(), r.s)
              || Atomically(Committed(Committed(db0, between1), between2), op, Value(), r.s))
    {
      if !FieldOk(key.workspace, 128) || !FieldOk(key.channel, 64) {
        return Invalid;
      }
      if !FieldOk(key.thread, 256) || !FieldOk(backend, 64) {
        return Invalid;
      }
      ghost var op := Op.GetOrCreate(key, backend, maxRounds, uuid);
      assert NeverDraws(between1, uuid) && NeverDraws(between2, uuid);
      var found := Find(rows, key);
      if found.Some? {
        assert Atomically(Value(), op, Value(), found.value);
        return Got(found.value);
      }
      CommittedKeepsTable(Value(), between1, uuid);
      Interfere(between1);
      ghost var db1 := Value();
      var s := NewSession(uuid, key, backend, maxRounds);
      var inserted := SessionTable.Insert(rows, s);
      if inserted.Some? {
        InsertKeepsUnique(rows, s);
        rows := inserted.value;
        assert Atomically(db1, op, Value(), s);
        return Got(s);
      }
      CommittedKeepsTable(Value(), between2, uuid);
      Interfere(between2);
      found := Find(rows, key);
      if found.None? {
        return Vanished;
      }
      assert Atomically(Value(), op, Value(), found.value);
      r := Got(found.value);
    }

    method Save(s: Session) returns (ok: bool)
      modifies this
      ensures ok <==> FieldsOk(Op.Save(s))
      ensures Value() == if ok then Step(old(Value()), Op.Save(s), true).0 else old(Value())
    {
      if !FieldOk(s.id, 64) {
        return false;
      }
      if s.thread != Null && !HandleOk(s.thread) {
        return false;
      }
      rows := Update(rows, s);
      ok := true;
    }

    /** None for invalid arguments. */
    method IsProcessed(id: string, message: string) returns (b: Option<bool>)
      ensures b.Some? <==> FieldsOk(Op.IsProcessed(id, message))
      ensures b.Some? ==> (Value(), Flag(b.value)) == Step(Value(), Op.IsProcessed(id, message), true)
    {
      if !FieldOk(id, 64) || !FieldOk(message, 256) {
        return None;
      }
      b := Some((id, message) in processed);
    }

    /** The insert's IntegrityError, from a duplicate or from the foreign key, is swallowed. */
    method MarkProcessed(id: string, message: string) returns (ok: bool)
      modifies this
      ensures ok <==> FieldsOk(Op.MarkProcessed(id, message))
      ensures Value() == if ok then Step(old(Value()), Op.MarkProcessed(id, message), true).0 else old(Value())
    {
      ok := FieldOk(id, 64) && FieldOk(message, 256);
      if !ok {
        return;
      }
      var duplicate := (id, message) in processed;
      var dangling := !HasId(rows, id);
      if duplicate || dangling {
        assert duplicate ==> processed + {(id, message)} == processed;
        return;
      }
      processed := processed + {(id, message)};
    }
  }
}
