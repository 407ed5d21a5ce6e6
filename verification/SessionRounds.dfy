/** When the round counter of a session is the number of turns saved for it, over every
    interleaving of the session protocol. */
module SessionRounds {
  import opened Sessions
  import opened SessionTable
  import opened AtomicStore
  import opened SessionProtocol

  /** The saves committed for a session. */
  function SavesOf(log: seq<Entry>, id: string): nat {
    if log == [] then 0
    else
      var last := log[|log| - 1].op;
      SavesOf(log[..|log| - 1], id) + if last.Save? && last.session.id == id then 1 else 0
  }

  /** Client `c` gets its session from get_or_create. */
  predicate Reads(st: State, a: Action, c: nat) {
    a.c == c && !ClientOf(st, c).Checking? && ClientOf(Step(st, a), c).Checking?
  }

  /** A save of session `id` is committed. */
  predicate Writes(st: State, a: Action, id: string) {
    a.Save? && ClientOf(st, a.c).Saving? && ClientOf(st, a.c).s.id == id
  }

  /** The state in which action `k` is taken. */
  function Before(actions: seq<Action>, k: nat): State
    requires k <= |actions|
  {
    Run(INITIAL, actions[..k])
  }

  predicate WritesAt(actions: seq<Action>, k: nat, id: string) {
    k < |actions| && Writes(Before(actions, k), actions[k], id)
  }

  /** How many actions had been taken when client `c` last got a session. */
  function LastRead(actions: seq<Action>, c: nat): (n: nat)
    ensures n <= |actions|
  {
    if actions == [] then 0
    else
      var front := actions[..|actions| - 1];
      if Reads(Run(INITIAL, front), actions[|actions| - 1], c) then |actions| else LastRead(front, c)
  }

  /** Action `j` commits a save of `id` by a client other than `c`, after `c` last read. */
  ghost predicate Overtakes(actions: seq<Action>, j: nat, c: nat, id: string) {
    LastRead(actions, c) <= j && WritesAt(actions, j, id) && actions[j].c != c
  }

  /** Action `k` saves session `id` although another client saved it since the saver's read. */
  ghost predicate Stale(actions: seq<Action>, k: nat, id: string) {
    WritesAt(actions, k, id) && exists j: nat :: j < k && Overtakes(actions[..k], j, actions[k].c, id)
  }

  ghost predicate NeverStale(actions: seq<Action>, id: string) {
    forall k :: 0 <= k < |actions| ==> !Stale(actions, k, id)
  }

  // ----- One step -----

  lemma LastStep(actions: seq<Action>)
    requires actions != []
    ensures var n := |actions| - 1;
      Before(actions, n) == Run(INITIAL, actions[..n]) && Run(INITIAL, actions) == Step(Before(actions, n), actions[n])
  {
  }

  lemma PrefixFacts(actions: seq<Action>, n: nat, id: string)
    requires n <= |actions|
    ensures forall k :: 0 <= k <= n ==> Before(actions[..n], k) == Before(actions, k)
    ensures forall k :: 0 <= k < n ==> (WritesAt(actions[..n], k, id) <==> WritesAt(actions, k, id))
    ensures forall k :: 0 <= k < n ==> (Stale(actions[..n], k, id) <==> Stale(actions, k, id))
  {
    assert forall k :: 0 <= k <= n ==> actions[..n][..k] == actions[..k];
  }

  lemma LogSnoc(log: seq<Entry>, e: Entry, id: string)
    ensures SavesOf(log + [e], id) == SavesOf(log, id) + if e.op.Save? && e.op.session.id == id then 1 else 0
  {
    assert (log + [e])[..|log|] == log;
  }

  lemma StepCounts(st: State, a: Action, id: string)
    ensures SavesOf(Step(st, a).log, id) == SavesOf(st.log, id) + if Writes(st, a, id) then 1 else 0
  {
    var log' := Step(st, a).log;
    if log' != st.log {
      var e := log'[|st.log|];
      assert log' == st.log + [e];
      LogSnoc(st.log, e, id);
    }
  }

  /** A client that holds a session it got from get_or_create and has not yet saved. */
  predicate Holds(cl: Client) {
    cl.Checking? || cl.Turning? || cl.Saving?
  }

  /** The rounds of the row as this client read it. */
  function RoundsRead(cl: Client): int
    requires Holds(cl)
  {
    if cl.Saving? then cl.s.rounds - 1 else cl.s.rounds
  }

  /** Holding the same session, as read at the same time. */
  predicate SameHold(cl: Client, cl': Client) {
    Holds(cl) && Holds(cl') && cl.call == cl'.call && cl.s.SameIdentity(cl'.s) && RoundsRead(cl) == RoundsRead(cl')
  }

  /** get_or_create returns a row of the table. */
  lemma HandStep(st: State, a: Action)
    requires Reads(st, a, a.c)
    ensures ClientOf(Step(st, a), a.c).s in Step(st, a).db.rows
  {
  }

  lemma KeepStep(st: State, a: Action, c: nat)
    requires Holds(ClientOf(Step(st, a), c)) && !Reads(st, a, c)
    ensures SameHold(ClientOf(st, c), ClientOf(Step(st, a), c))
  {
  }

  /** A client that holds a session has just read its row, or held it before. */
  lemma HoldStep(st: State, a: Action, c: nat)
    requires Holds(ClientOf(Step(st, a), c))
    ensures if Reads(st, a, c) then
              var cl := ClientOf(Step(st, a), c); cl.s in Step(st, a).db.rows && RoundsRead(cl) == cl.s.rounds
            else SameHold(ClientOf(st, c), ClientOf(Step(st, a), c))
  {
    if Reads(st, a, c) { HandStep(st, a); } else { KeepStep(st, a, c); }
  }

  /** Every moment since client `c` last read, it held what it holds now. */
  ghost predicate HeldSince(actions: seq<Action>, c: nat, p: nat) {
    forall j :: p <= j <= |actions| ==>
      SameHold(ClientOf(Before(actions, j), c), ClientOf(Run(INITIAL, actions), c))
  }

  lemma HeldSnoc(actions: seq<Action>, c: nat, p: nat)
    requires p < |actions| && HeldSince(actions[..|actions| - 1], c, p)
    requires SameHold(ClientOf(Run(INITIAL, actions[..|actions| - 1]), c), ClientOf(Run(INITIAL, actions), c))
    ensures HeldSince(actions, c, p)
  {
    var front := actions[..|actions| - 1];
    assert actions[..|actions|] == actions;
    forall j | p <= j <= |actions|
      ensures SameHold(ClientOf(Before(actions, j), c), ClientOf(Run(INITIAL, actions), c))
    {
      if j < |actions| {
        assert front[..j] == actions[..j];
        assert SameHold(ClientOf(Before(front, j), c), ClientOf(Run(INITIAL, front), c));
      }
    }
  }

  lemma HoldLast(actions: seq<Action>, c: nat)
    requires actions != [] && Holds(ClientOf(Run(INITIAL, actions), c))
    ensures var st, front := Run(INITIAL, actions), actions[..|actions| - 1];
      if LastRead(actions, c) == |actions| then
        ClientOf(st, c).s in st.db.rows && RoundsRead(ClientOf(st, c)) == ClientOf(st, c).s.rounds
      else
        && LastRead(actions, c) == LastRead(front, c)
        && SameHold(ClientOf(Run(INITIAL, front), c), ClientOf(st, c))
  {
    LastStep(actions);
    HoldStep(Before(actions, |actions| - 1), actions[|actions| - 1], c);
  }

  lemma HeldNow(actions: seq<Action>, c: nat)
    requires Holds(ClientOf(Run(INITIAL, actions), c))
    ensures HeldSince(actions, c, |actions|)
  {
    assert actions[..|actions|] == actions;
  }

  /** A client that holds a session holds it since its last read. */
  lemma {:induction false} HeldSinceRead(actions: seq<Action>, c: nat)
    requires Holds(ClientOf(Run(INITIAL, actions), c))
    ensures HeldSince(actions, c, LastRead(actions, c))
  {
    var p := LastRead(actions, c);
    if p == |actions| {
      HeldNow(actions, c);
    } else {
      HoldLast(actions, c);
      HeldSinceRead(actions[..|actions| - 1], c);
      HeldSnoc(actions, c, p);
    }
  }

  ghost predicate ReadRow(cl: Client, rows: seq<Session>, row: Session) {
    Holds(cl) && row in rows && row.SameIdentity(cl.s) && row.rounds == RoundsRead(cl)
  }

  /** What it holds is a row of the table as it was then. */
  lemma {:induction false} RowRead(actions: seq<Action>, c: nat) returns (row: Session)
    requires Holds(ClientOf(Run(INITIAL, actions), c))
    ensures ReadRow(ClientOf(Run(INITIAL, actions), c), Before(actions, LastRead(actions, c)).db.rows, row)
  {
    if actions != [] {
      var front, p := actions[..|actions| - 1], LastRead(actions, c);
      HoldLast(actions, c);
      if p == |actions| {
        assert actions[..p] == actions;
        row := ClientOf(Run(INITIAL, actions), c).s;
      } else {
        row := RowRead(front, c);
        assert front[..p] == actions[..p];
      }
    }
  }

  lemma UpdatedIs(st: State, s: Session, r: Session)
    requires TableOk(st) && HasRowFor(st.db.rows, s) && InBounds(st, s) && r in Update(st.db.rows, s)
    ensures r.id == s.id ==> r == s
    ensures r.id != s.id ==> r in st.db.rows
  {
    SaveRows(st, s);
    UpdateKeepsUnique(st.db.rows, s);
    if r.id == s.id {
      UniqueRow(Update(st.db.rows, s), r, s);
    }
  }

  /** Where the rows of the next state come from. */
  lemma RowStep(st: State, a: Action, r: Session)
    requires Inv(st) && r in Step(st, a).db.rows
    ensures if Writes(st, a, r.id) then r == ClientOf(st, a.c).s
            else r in st.db.rows || (r.rounds == 0 && r.id !in st.drawn)
  {
    assert ClientOk(st, ClientOf(st, a.c));
    if a.Save? && ClientOf(st, a.c).Saving? {
      UpdatedIs(st, ClientOf(st, a.c).s, r);
    }
  }

  // ----- A whole run -----

  lemma CountLast(actions: seq<Action>, id: string)
    requires actions != []
    ensures var n := |actions| - 1;
      SavesOf(Run(INITIAL, actions).log, id) ==
      SavesOf(Before(actions, n).log, id) + if WritesAt(actions, n, id) then 1 else 0
  {
    LastStep(actions);
    StepCounts(Before(actions, |actions| - 1), actions[|actions| - 1], id);
  }

  /** No save of `id` is committed from action `p` on. */
  ghost predicate Quiet(actions: seq<Action>, p: nat, id: string) {
    forall j :: p <= j < |actions| ==> !WritesAt(actions, j, id)
  }

  lemma QuietSnoc(actions: seq<Action>, p: nat, id: string)
    requires p < |actions|
    ensures var n := |actions| - 1;
      Quiet(actions, p, id) <==> Quiet(actions[..n], p, id) && !WritesAt(actions, n, id)
  {
    PrefixFacts(actions, |actions| - 1, id);
  }

  /** The saves counted are the saves taken. */
  lemma {:induction false} SavesSince(actions: seq<Action>, p: nat, id: string)
    requires p <= |actions|
    ensures var before, now := SavesOf(Before(actions, p).log, id), SavesOf(Run(INITIAL, actions).log, id);
      before <= now && (before == now <==> Quiet(actions, p, id))
  {
    if p == |actions| {
      assert actions[..p] == actions;
    } else {
      var n := |actions| - 1;
      CountLast(actions, id);
      QuietSnoc(actions, p, id);
      assert actions[..n][..p] == actions[..p];
      SavesSince(actions[..n], p, id);
    }
  }

  lemma UndrawnStep(st: State, a: Action, id: string)
    requires Inv(st) && id !in Step(st, a).drawn
    ensures id !in st.drawn && !Writes(st, a, id)
  {
    assert ClientOk(st, ClientOf(st, a.c));
  }

  /** A session without an id drawn for it has no saves. */
  lemma {:induction false} UndrawnUnsaved(actions: seq<Action>, id: string)
    requires id !in Run(INITIAL, actions).drawn
    ensures SavesOf(Run(INITIAL, actions).log, id) == 0
  {
    if actions != [] {
      var n := |actions| - 1;
      LastStep(actions);
      Reachable(actions[..n]);
      UndrawnStep(Before(actions, n), actions[n], id);
      UndrawnUnsaved(actions[..n], id);
      CountLast(actions, id);
    }
  }

  lemma SaverLetsGo(actions: seq<Action>, j: nat, id: string)
    requires WritesAt(actions, j, id)
    ensures !Holds(ClientOf(Before(actions, j + 1), actions[j].c))
  {
    assert actions[..j + 1][..j] == actions[..j];
    LastStep(actions[..j + 1]);
  }

  /** Saves since a client's last read, while it holds a session, are other clients'. */
  lemma SavesAreOthers(actions: seq<Action>, c: nat, j: nat, id: string)
    requires Holds(ClientOf(Run(INITIAL, actions), c))
    requires LastRead(actions, c) <= j && WritesAt(actions, j, id)
    ensures Overtakes(actions, j, c, id)
  {
    HeldSinceRead(actions, c);
    SaverLetsGo(actions, j, id);
    assert SameHold(ClientOf(Before(actions, j + 1), c), ClientOf(Run(INITIAL, actions), c));
  }

  /** A save is stale exactly if any save of the session stands between its read and it. */
  lemma StaleIff(actions: seq<Action>, id: string)
    requires actions != [] && WritesAt(actions, |actions| - 1, id)
    ensures var n := |actions| - 1;
      Stale(actions, n, id) <==> !Quiet(actions[..n], LastRead(actions[..n], actions[n].c), id)
  {
    var n := |actions| - 1;
    var front, c := actions[..n], actions[n].c;
    forall j | LastRead(front, c) <= j < n && WritesAt(front, j, id) ensures Overtakes(front, j, c, id) {
      SavesAreOthers(front, c, j, id);
    }
  }

  lemma NeverStaleSnoc(actions: seq<Action>, id: string)
    requires actions != []
    ensures var n := |actions| - 1;
      NeverStale(actions, id) <==> NeverStale(actions[..n], id) && !Stale(actions, n, id)
  {
    PrefixFacts(actions, |actions| - 1, id);
  }

  /** Without a save since `p`, staleness is decided at `p`. */
  lemma NeverStaleSince(actions: seq<Action>, p: nat, id: string)
    requires p <= |actions|
    ensures NeverStale(actions, id) ==> NeverStale(actions[..p], id)
    ensures Quiet(actions, p, id) && NeverStale(actions[..p], id) ==> NeverStale(actions, id)
  {
    PrefixFacts(actions, p, id);
    if NeverStale(actions, id) {
      forall k | 0 <= k < p ensures !Stale(actions[..p], k, id) {
        assert !Stale(actions, k, id);
      }
    }
  }

  /** The rounds on record never exceed the turns saved, and they are the turns saved exactly if
      no save of the session was ever committed between another client's read of it and that
      client's save. */
  lemma {:induction false} RoundsAreSavesIff(actions: seq<Action>, r: Session)
    requires r in Run(INITIAL, actions).db.rows
    ensures var saves := SavesOf(Run(INITIAL, actions).log, r.id);
      r.rounds <= saves && (r.rounds == saves <==> NeverStale(actions, r.id))
    decreases |actions|
  {
    if actions != [] {
      var n := |actions| - 1;
      var front, st, a := actions[..n], Before(actions, n), actions[n];
      LastStep(actions);
      Reachable(front);
      RowStep(st, a, r);
      StepCounts(st, a, r.id);
      NeverStaleSnoc(actions, r.id);
      if Writes(st, a, r.id) {
        SavedRoundsIff(actions, r);
      } else if r in st.db.rows {
        RoundsAreSavesIff(front, r);
      } else {
        UndrawnUnsaved(front, r.id);
        SavesSince(front, 0, r.id);
        assert front[..0] == [];
        NeverStaleSince(front, 0, r.id);
      }
    }
  }

  /** The case of a row just saved. */
  lemma {:induction false} SavedRoundsIff(actions: seq<Action>, r: Session)
    requires actions != [] && WritesAt(actions, |actions| - 1, r.id)
    requires r == ClientOf(Before(actions, |actions| - 1), actions[|actions| - 1].c).s
    ensures var saves := SavesOf(Run(INITIAL, actions).log, r.id);
      r.rounds <= saves && (r.rounds == saves <==> NeverStale(actions, r.id))
    decreases |actions|, 0
  {
    var n := |actions| - 1;
    var front := actions[..n];
    var p := LastRead(front, actions[n].c);
    var row := RowRead(front, actions[n].c);
    RoundsAreSavesIff(front[..p], row);
    LastStep(actions);
    StepCounts(Before(actions, n), actions[n], r.id);
    SavesSince(front, p, r.id);
    StaleIff(actions, r.id);
    NeverStaleSnoc(actions, r.id);
    NeverStaleSince(front, p, r.id);
  }

  lemma RowOf(rows: seq<Session>, s: Session, row: Session)
    requires Unique(rows) && HasRowFor(rows, s) && row in rows && row.id == s.id
    ensures row.SameIdentity(s)
  {
    var q :| q in rows && q.SameIdentity(s);
    UniqueRow(rows, q, row);
  }

  lemma SavedRow(st: State, c: nat, row: Session)
    requires Inv(st) && ClientOf(st, c).Saving? && row in st.db.rows && row.id == ClientOf(st, c).s.id
    ensures var s := ClientOf(st, c).s; s in Step(st, Action.Save(c)).db.rows && row.SameIdentity(s)
  {
    assert ClientOk(st, ClientOf(st, c));
    RowOf(st.db.rows, ClientOf(st, c).s, row);
    SaveRows(st, ClientOf(st, c).s);
  }

  /** A save from any reachable state gives the row exactly one more round than it had if and
      only if the row still has the rounds it had when the client read it. */
  lemma SaveAddsRoundIff(actions: seq<Action>, c: nat, row: Session, read: Session)
    requires var st := Run(INITIAL, actions);
      && ClientOf(st, c).Saving? && row in st.db.rows && row.id == ClientOf(st, c).s.id
      && read in Before(actions, LastRead(actions, c)).db.rows && read.id == row.id
    ensures var rows := Step(Run(INITIAL, actions), Action.Save(c)).db.rows;
      exists saved :: saved in rows && saved.SameIdentity(row) &&
                      (saved.rounds == row.rounds + 1 <==> row.rounds == read.rounds)
  {
    var p := LastRead(actions, c);
    Reachable(actions);
    SavedRow(Run(INITIAL, actions), c, row);
    var held := RowRead(actions, c);
    Reachable(actions[..p]);
    UniqueRow(Before(actions, p).db.rows, held, read);
  }

  // ----- A condition callers can keep -----

  predicate Active(cl: Client) {
    cl.Selecting? || cl.Inserting? || cl.Reselecting? || Holds(cl)
  }

  /** No client is in a call on `key` that it has not yet saved. */
  ghost predicate Free(st: State, key: Key) {
    forall c :: Active(ClientOf(st, c)) ==> ClientOf(st, c).call.key != key
  }

  /** A call on `key` is only made while no other is open. */
  ghost predicate Serial(actions: seq<Action>, key: Key) {
    forall k :: 0 <= k < |actions| ==>
      var st, a := Before(actions, k), actions[k];
      a.Begin? && a.key == key && ClientOf(st, a.c).Idle? ==> Free(st, key)
  }

  lemma SerialPrefix(actions: seq<Action>, n: nat, key: Key)
    requires n <= |actions| && Serial(actions, key)
    ensures Serial(actions[..n], key)
  {
    PrefixFacts(actions, n, "");
    forall k | 0 <= k < n
      ensures var st, a := Before(actions[..n], k), actions[..n][k];
        a.Begin? && a.key == key && ClientOf(st, a.c).Idle? ==> Free(st, key)
    {
      assert Before(actions[..n], k) == Before(actions, k);
    }
  }

  predicate ActiveOn(st: State, c: nat, key: Key) {
    Active(ClientOf(st, c)) && ClientOf(st, c).call.key == key
  }

  lemma ActiveStep(st: State, a: Action, c: nat, key: Key)
    requires ActiveOn(Step(st, a), c, key)
    ensures ActiveOn(st, c, key) || (a.Begin? && a.key == key && a.c == c && ClientOf(st, c).Idle?)
  {
  }

  lemma {:induction false} SerialOne(actions: seq<Action>, key: Key, c: nat, d: nat)
    requires Serial(actions, key)
    requires ActiveOn(Run(INITIAL, actions), c, key) && ActiveOn(Run(INITIAL, actions), d, key)
    ensures c == d
  {
    if actions != [] {
      var n := |actions| - 1;
      LastStep(actions);
      SerialPrefix(actions, n, key);
      ActiveStep(Before(actions, n), actions[n], c, key);
      ActiveStep(Before(actions, n), actions[n], d, key);
      if ActiveOn(Before(actions, n), c, key) && ActiveOn(Before(actions, n), d, key) {
        SerialOne(actions[..n], key, c, d);
      }
    }
  }

  /** Clients that hold one session are in calls on its key. */
  lemma HoldersActive(actions: seq<Action>, c: nat, row: Session)
    requires var st := Run(INITIAL, actions);
      row in st.db.rows && Holds(ClientOf(st, c)) && ClientOf(st, c).s.id == row.id
    ensures ActiveOn(Run(INITIAL, actions), c, row.key)
  {
    var st := Run(INITIAL, actions);
    Reachable(actions);
    assert ClientOk(st, ClientOf(st, c));
    RowOf(st.db.rows, ClientOf(st, c).s, row);
  }

  lemma SerialNeverStale(actions: seq<Action>, r: Session)
    requires Serial(actions, r.key) && r in Run(INITIAL, actions).db.rows
    ensures NeverStale(actions, r.id)
  {
    forall k | 0 <= k < |actions| ensures !Stale(actions, k, r.id) {
      if Stale(actions, k, r.id) {
        var j: nat :| j < k && Overtakes(actions[..k], j, actions[k].c, r.id);
        OvertakerIsOpen(actions, j, k, r);
        SerialPrefix(actions, j, r.key);
        SerialOne(actions[..j], r.key, actions[j].c, actions[k].c);
        assert false;
      }
    }
  }

  /** When a save overtakes another, both clients are in calls on the session's key. */
  lemma OvertakerIsOpen(actions: seq<Action>, j: nat, k: nat, r: Session)
    requires j < k < |actions| && r in Run(INITIAL, actions).db.rows
    requires WritesAt(actions, k, r.id) && Overtakes(actions[..k], j, actions[k].c, r.id)
    ensures ActiveOn(Before(actions, j), actions[j].c, r.key)
    ensures ActiveOn(Before(actions, j), actions[k].c, r.key)
  {
    var st := Before(actions, j);
    PrefixFacts(actions, k, r.id);
    Reachable(actions[..j]);
    assert ClientOk(st, ClientOf(st, actions[j].c));
    var row :| row in st.db.rows && row.SameIdentity(ClientOf(st, actions[j].c).s);
    RowIsForever(actions, j, row, r);
    HoldersActive(actions[..j], actions[j].c, row);
    HeldSinceRead(actions[..k], actions[k].c);
    assert SameHold(ClientOf(Before(actions[..k], j), actions[k].c), ClientOf(Before(actions, k), actions[k].c));
    HoldersActive(actions[..j], actions[k].c, row);
  }

  lemma RowIsForever(actions: seq<Action>, j: nat, row: Session, r: Session)
    requires j <= |actions| && row in Before(actions, j).db.rows && r in Run(INITIAL, actions).db.rows
    requires row.id == r.id
    ensures row.key == r.key
  {
    assert actions[..j] + actions[j..] == actions;
    IdentityForever(actions[..j], actions[j..], row);
    Reachable(actions);
    var q :| q in Run(INITIAL, actions).db.rows && q.SameIdentity(row);
    UniqueRow(Run(INITIAL, actions).db.rows, q, r);
  }

  /** If calls on a key are made only while no other call on it is open, the session's rounds are
      exactly the turns saved for it, whatever goes on under other keys and whoever crashes. */
  lemma SerialRoundsExact(actions: seq<Action>, r: Session)
    requires Serial(actions, r.key) && r in Run(INITIAL, actions).db.rows
    ensures r.rounds == SavesOf(Run(INITIAL, actions).log, r.id)
  {
    SerialNeverStale(actions, r);
    RoundsAreSavesIff(actions, r);
  }
}
