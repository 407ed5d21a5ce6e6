/** Session records and the contract of a session store (engine/persistence/contracts.py). */
module Sessions {
  import opened Runtime

  datatype Key = Key(workspace: string, channel: string, thread: string)

  /** `thread` is the backend's resume handle, Null before the first turn. */
  datatype Session = Session(
    id: string,
    key: Key,
    backend: string,
    thread: Json,
    rounds: int,
    maxRounds: int,
    lastActive: real)
  {
    /** The copy that records one more turn. */
    function WithTurn(thread: Json, now: real): Session {
      this.(thread := thread, rounds := rounds + 1, lastActive := now)
    }

    /** Agreement on every field that no turn changes. */
    predicate SameIdentity(s: Session) {
      id == s.id && key == s.key && backend == s.backend && maxRounds == s.maxRounds
    }
  }

  function NewSession(id: string, key: Key, backend: string, maxRounds: int): Session {
    Session(id, key, backend, Null, 0, maxRounds, 0.0)
  }

  /** The session reached from `base` by a run of turns. */
  function Descend(base: Session, turns: seq<(Json, real)>): Session {
    if turns == [] then base
    else Descend(base, turns[..|turns| - 1]).WithTurn(turns[|turns| - 1].0, turns[|turns| - 1].1)
  }

  ghost predicate Descends(base: Session, s: Session) {
    exists turns: seq<(Json, real)> :: Descend(base, turns) == s
  }

  lemma {:induction false} DescendKeepsIdentity(base: Session, turns: seq<(Json, real)>)
    ensures base.SameIdentity(Descend(base, turns))
    ensures Descend(base, turns).rounds == base.rounds + |turns|
    ensures turns == [] ==> Descend(base, turns) == base
    ensures turns != [] ==> (Descend(base, turns).thread, Descend(base, turns).lastActive) == turns[|turns| - 1]
  {
    if turns != [] {
      DescendKeepsIdentity(base, turns[..|turns| - 1]);
    }
  }

  /** The calls a session store answers. `GetOrCreate` carries the uuid drawn if it creates. */
  datatype Op =
    | GetOrCreate(key: Key, backend: string, maxRounds: int, newId: string)
    | Save(session: Session)
    | IsProcessed(id: string, message: string)
    | MarkProcessed(id: string, message: string)

  datatype Answer = Found(session: Session) | Flag(b: bool) | Done
}

/** The session table of the SQL stores: rows, and the statements run against them. */
module SessionTable {
  import opened Wrappers
  import opened Sessions

  /** SELECT by natural key. */
  function Find(rows: seq<Session>, key: Key): (r: Option<Session>)
    ensures r.Some? ==> r.value in rows && r.value.key == key
    ensures r.None? <==> !HasKey(rows, key)
  {
    if rows == [] then None else if rows[0].key == key then Some(rows[0]) else Find(rows[1..], key)
  }

  predicate HasKey(rows: seq<Session>, key: Key) {
    exists r :: r in rows && r.key == key
  }

  predicate HasId(rows: seq<Session>, id: string) {
    exists r :: r in rows && r.id == id
  }

  /** INSERT; None is an IntegrityError from the primary key or the natural-key constraint. */
  function Insert(rows: seq<Session>, s: Session): Option<seq<Session>> {
    if HasKey(rows, s.key) || HasId(rows, s.id) then None else Some(rows + [s])
  }

  /** The four columns an UPDATE writes. */
  function Patch(row: Session, s: Session): Session {
    row.(thread := s.thread, rounds := s.rounds, maxRounds := s.maxRounds, lastActive := s.lastActive)
  }

  /** UPDATE ... WHERE session_id = s.id. */
  function Update(rows: seq<Session>, s: Session): (rows': seq<Session>)
    ensures |rows'| == |rows|
    ensures forall i :: 0 <= i < |rows| ==> rows'[i] == if rows[i].id == s.id then Patch(rows[i], s) else rows[i]
  {
    seq(|rows|, i requires 0 <= i < |rows| => if rows[i].id == s.id then Patch(rows[i], s) else rows[i])
  }

  /** At most one row per id and per natural key. */
  ghost predicate Unique(rows: seq<Session>) {
    forall i, j :: 0 <= i < j < |rows| ==> rows[i].id != rows[j].id && rows[i].key != rows[j].key
  }

  lemma InsertKeepsUnique(rows: seq<Session>, s: Session)
    requires Unique(rows) && Insert(rows, s).Some?
    ensures Unique(Insert(rows, s).value)
  {
    assert forall i :: 0 <= i < |rows| ==> rows[i] in rows;
  }

  lemma UpdateKeepsUnique(rows: seq<Session>, s: Session)
    requires Unique(rows)
    ensures Unique(Update(rows, s))
  {
  }

  lemma InsertedHas(rows: seq<Session>, s: Session)
    ensures forall id :: HasId(rows + [s], id) <==> HasId(rows, id) || id == s.id
    ensures forall k :: HasKey(rows + [s], k) <==> HasKey(rows, k) || k == s.key
  {
    assert s in rows + [s];
    assert forall r :: r in rows ==> r in rows + [s];
  }

  lemma UpdatedHas(rows: seq<Session>, s: Session)
    ensures forall id :: HasId(Update(rows, s), id) <==> HasId(rows, id)
    ensures forall k :: HasKey(Update(rows, s), k) <==> HasKey(rows, k)
  {
    forall r | r in rows ensures HasId(Update(rows, s), r.id) && HasKey(Update(rows, s), r.key) {
      UpdateRow(rows, s, r);
    }
    forall r | r in Update(rows, s) ensures HasId(rows, r.id) && HasKey(rows, r.key) {
      UpdatedRow(rows, s, r);
    }
  }

  /** The row of a session, whatever turns either has seen. */
  ghost predicate HasRowFor(rows: seq<Session>, s: Session) {
    exists r :: r in rows && r.SameIdentity(s)
  }

  lemma UniqueRow(rows: seq<Session>, r: Session, q: Session)
    requires Unique(rows) && r in rows && q in rows && (r.id == q.id || r.key == q.key)
    ensures r == q
  {
    var i :| 0 <= i < |rows| && rows[i] == r;
    var j :| 0 <= j < |rows| && rows[j] == q;
  }

  lemma UpdateRow(rows: seq<Session>, s: Session, r: Session)
    requires r in rows
    ensures (if r.id == s.id then Patch(r, s) else r) in Update(rows, s)
  {
    var i :| 0 <= i < |rows| && rows[i] == r;
    assert Update(rows, s)[i] in Update(rows, s);
  }

  lemma UpdatedRow(rows: seq<Session>, s: Session, r: Session)
    requires r in Update(rows, s)
    ensures exists q :: q in rows && r == if q.id == s.id then Patch(q, s) else q
  {
    var i :| 0 <= i < |rows| && Update(rows, s)[i] == r;
    assert rows[i] in rows;
  }
}
