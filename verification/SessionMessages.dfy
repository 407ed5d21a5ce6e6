/** What the duplicate and round checks of `handle` guarantee over every interleaving, and when a
    message is answered at most once. */
module SessionMessages {
  import opened Wrappers
  import opened Runtime
  import opened Runs
  import opened Sessions
  import opened SessionTable
  import opened SessionProtocol
  import opened SessionRounds
  import RowStore

  // ----- From a check on -----

  ghost predicate NotBy(actions: seq<Action>, c: nat) {
    forall i :: 0 <= i < |actions| ==> actions[i].c != c
  }

  ghost predicate NoCallBy(actions: seq<Action>, c: nat) {
    forall i :: 0 <= i < |actions| ==> !(actions[i].Begin? && actions[i].c == c)
  }

  lemma OtherStep(st: State, a: Action, c: nat)
    requires a.c != c
    ensures ClientOf(Step(st, a), c) == ClientOf(st, c)
  {
  }

  /** Other clients' steps leave a client where it is. */
  lemma {:induction false} OthersLeave(st: State, actions: seq<Action>, c: nat)
    requires NotBy(actions, c)
    ensures ClientOf(Run(st, actions), c) == ClientOf(st, c)
  {
    if actions != [] {
      OthersLeave(st, actions[..|actions| - 1], c);
      OtherStep(Run(st, actions[..|actions| - 1]), actions[|actions| - 1], c);
    }
  }

  /** In no call: nothing but a new call makes it do anything. */
  predicate Resting(cl: Client) {
    cl.Idle? || cl.Crashed?
  }

  lemma RestingStep(st: State, a: Action, c: nat)
    requires Resting(ClientOf(st, c)) && !(a.Begin? && a.c == c)
    ensures Resting(ClientOf(Step(st, a), c))
    ensures a.c == c ==> Step(st, a).db == st.db && Step(st, a).turns == st.turns
  {
  }

  lemma {:induction false} StaysResting(st: State, actions: seq<Action>, c: nat)
    requires Resting(ClientOf(st, c)) && NoCallBy(actions, c)
    ensures Resting(ClientOf(Run(st, actions), c))
  {
    if actions != [] {
      StaysResting(st, actions[..|actions| - 1], c);
      RestingStep(Run(st, actions[..|actions| - 1]), actions[|actions| - 1], c);
    }
  }

  ghost predicate Marked(st: State, call: Call, s: Session) {
    call.message.Some? && (s.id, call.message.value) in st.db.processed
  }

  /** What a check decides. */
  lemma CheckDecides(st: State, c: nat)
    requires ClientOf(st, c).Checking?
    ensures var call, s, next := ClientOf(st, c).call, ClientOf(st, c).s, Step(st, Check(c));
      && ClientOf(next, c) == (if Marked(st, call, s) || s.rounds >= s.maxRounds then Idle else Turning(call, s))
      && next.db == st.db && next.turns == st.turns
  {
  }

  lemma RunOn(before: seq<Action>, a: Action, after: seq<Action>)
    ensures Run(INITIAL, before + [a] + after) == Run(Step(Run(INITIAL, before), a), after)
  {
    assert (before + [a])[..|before|] == before;
    StateAfterSplits(Step, INITIAL, before + [a], after);
  }

  /** Step `i` of `after` neither changes the database nor completes a turn. */
  ghost predicate Idles(before: seq<Action>, a: Action, after: seq<Action>, i: nat)
    requires i < |after|
  {
    var st := Run(INITIAL, before + [a] + after[..i]);
    Step(st, after[i]).db == st.db && Step(st, after[i]).turns == st.turns
  }

  /** A client at rest after action `a` completes no turn and changes no table until its next call. */
  ghost predicate EndsCall(before: seq<Action>, a: Action, c: nat, after: seq<Action>) {
    && Resting(ClientOf(Run(INITIAL, before + [a] + after), c))
    && forall i :: 0 <= i < |after| && after[i].c == c ==> Idles(before, a, after, i)
  }

  lemma RestsAfter(before: seq<Action>, a: Action, c: nat, after: seq<Action>)
    requires Resting(ClientOf(Step(Run(INITIAL, before), a), c)) && NoCallBy(after, c)
    ensures EndsCall(before, a, c, after)
  {
    var next := Step(Run(INITIAL, before), a);
    RunOn(before, a, after);
    StaysResting(next, after, c);
    forall i | 0 <= i < |after| && after[i].c == c ensures Idles(before, a, after, i) {
      RunOn(before, a, after[..i]);
      StaysResting(next, after[..i], c);
      RestingStep(Run(next, after[..i]), after[i], c);
    }
  }

  lemma RunOne(before: seq<Action>, a: Action)
    ensures Run(INITIAL, before + [a]) == Step(Run(INITIAL, before), a)
  {
    RunOn(before, a, []);
    assert before + [a] + [] == before + [a];
  }

  /** A call that is checked when its message is marked, or its rounds are used up, ends there: the
      client never completes a turn and never saves, until it makes another call. */
  lemma RefusedForGood(before: seq<Action>, c: nat, after: seq<Action>)
    requires ClientOf(Run(INITIAL, before), c).Checking? && NoCallBy(after, c)
    requires var st := Run(INITIAL, before);
      var cl := ClientOf(st, c);
      Marked(st, cl.call, cl.s) || cl.s.rounds >= cl.s.maxRounds
    ensures Run(INITIAL, before + [Check(c)]).turns == Run(INITIAL, before).turns
    ensures Run(INITIAL, before + [Check(c)]).db == Run(INITIAL, before).db
    ensures EndsCall(before, Check(c), c, after)
  {
    CheckDecides(Run(INITIAL, before), c);
    RunOne(before, Check(c));
    RestsAfter(before, Check(c), c, after);
  }

  /** So does a call whose turn fails. */
  lemma FailedForGood(before: seq<Action>, c: nat, after: seq<Action>)
    requires ClientOf(Run(INITIAL, before), c).Turning? && NoCallBy(after, c)
    ensures Run(INITIAL, before + [TurnFails(c)]).turns == Run(INITIAL, before).turns
    ensures Run(INITIAL, before + [TurnFails(c)]).db == Run(INITIAL, before).db
    ensures EndsCall(before, TurnFails(c), c, after)
  {
    RunOne(before, TurnFails(c));
    RestsAfter(before, TurnFails(c), c, after);
  }

  /** A call that is checked when its message is not marked and its rounds are not used up goes on
      to a turn, whatever others do meanwhile. */
  lemma UnmarkedTakesTurn(before: seq<Action>, c: nat, between: seq<Action>, thread: Json, now: real)
    requires ClientOf(Run(INITIAL, before), c).Checking? && NotBy(between, c)
    requires var st := Run(INITIAL, before);
      var cl := ClientOf(st, c);
      !Marked(st, cl.call, cl.s) && cl.s.rounds < cl.s.maxRounds
    ensures var id, st := ClientOf(Run(INITIAL, before), c).s.id, Run(INITIAL, before + [Check(c)] + between);
      TurnsOf(Step(st, Turn(c, thread, now)), id) == TurnsOf(st, id) + 1
  {
    CheckDecides(Run(INITIAL, before), c);
    RunOn(before, Check(c), between);
    OthersLeave(Step(Run(INITIAL, before), Check(c)), between, c);
  }

  lemma SaveStores(st: State, c: nat)
    requires Inv(st) && ClientOf(st, c).Saving?
    ensures ClientOf(st, c).s in Step(st, Action.Save(c)).db.rows
  {
    assert ClientOk(st, ClientOf(st, c));
    SaveRows(st, ClientOf(st, c).s);
  }

  /** A completed turn is saved, whatever others do meanwhile: the session's row gets one round more
      than the client read, the handle and the time of that turn, and keeps its identity. */
  lemma TurnIsSaved(before: seq<Action>, c: nat, thread: Json, now: real, between: seq<Action>)
    requires ClientOf(Run(INITIAL, before), c).Turning? && NotBy(between, c)
    ensures var read := ClientOf(Run(INITIAL, before), c).s;
      var st := Run(INITIAL, before + [Turn(c, thread, now)] + between);
      Session(read.id, read.key, read.backend, thread, read.rounds + 1, read.maxRounds, now) in
        Step(st, Action.Save(c)).db.rows
  {
    RunOn(before, Turn(c, thread, now), between);
    OthersLeave(Step(Run(INITIAL, before), Turn(c, thread, now)), between, c);
    Reachable(before + [Turn(c, thread, now)] + between);
    SaveStores(Run(INITIAL, before + [Turn(c, thread, now)] + between), c);
  }

  lemma SaveGoesToMark(st: State, c: nat)
    requires ClientOf(st, c).Saving? && ClientOf(st, c).call.message.Some?
    ensures var cl := ClientOf(st, c); IsMarking(Step(st, Action.Save(c)), c, cl.s.id, cl.call.message.value)
  {
  }

  /** A saved turn's message is then marked, unless the client crashes before. */
  lemma SaveIsMarked(before: seq<Action>, c: nat, between: seq<Action>)
    requires ClientOf(Run(INITIAL, before), c).Saving? && NotBy(between, c)
    requires ClientOf(Run(INITIAL, before), c).call.message.Some?
    ensures var cl, st := ClientOf(Run(INITIAL, before), c), Run(INITIAL, before + [Action.Save(c)] + between);
      (cl.s.id, cl.call.message.value) in Step(st, Mark(c)).db.processed
  {
    var cl, all := ClientOf(Run(INITIAL, before), c), before + [Action.Save(c)] + between;
    SaveGoesToMark(Run(INITIAL, before), c);
    RunOn(before, Action.Save(c), between);
    OthersLeave(Step(Run(INITIAL, before), Action.Save(c)), between, c);
    Reachable(all);
    MarkedRow(Run(INITIAL, all), c, cl.s.id, cl.call.message.value);
  }

  // ----- Saves of one message -----

  /** Action `k` saves a turn for message `m` of session `id`. */
  ghost predicate SavesMessage(actions: seq<Action>, k: nat, id: string, m: string) {
    WritesAt(actions, k, id) && ClientOf(Before(actions, k), actions[k].c).call.message == Some(m)
  }

  /** Action `q` is client `c`'s check of message `m` of session `id`, which is not marked. */
  ghost predicate ChecksUnmarked(actions: seq<Action>, q: nat, c: nat, id: string, m: string) {
    && q < |actions| && actions[q] == Check(c)
    && var cl := ClientOf(Before(actions, q), c);
      && cl.Checking? && cl.s.id == id && cl.call.message == Some(m)
      && (id, m) !in Before(actions, q).db.processed
  }

  predicate PastCheck(cl: Client) {
    cl.Turning? || cl.Saving?
  }

  lemma PastCheckStep(st: State, a: Action, c: nat)
    requires PastCheck(ClientOf(Step(st, a), c))
    ensures var cl, cl' := ClientOf(st, c), ClientOf(Step(st, a), c);
      || (PastCheck(cl) && cl.call == cl'.call && cl.s.id == cl'.s.id)
      || (a == Check(c) && cl.Checking? && cl.call == cl'.call && cl.s.id == cl'.s.id && !Marked(st, cl.call, cl.s))
  {
  }

  /** A client past its check was checked when its message was not marked. */
  lemma {:induction false} WasUnmarked(actions: seq<Action>, c: nat, id: string, m: string) returns (q: nat)
    requires var cl := ClientOf(Run(INITIAL, actions), c);
      PastCheck(cl) && cl.s.id == id && cl.call.message == Some(m)
    ensures ChecksUnmarked(actions, q, c, id, m)
  {
    var n := |actions| - 1;
    LastStep(actions);
    PastCheckStep(Before(actions, n), actions[n], c);
    if PastCheck(ClientOf(Before(actions, n), c)) {
      q := WasUnmarked(actions[..n], c, id, m);
      assert actions[..n][..q] == actions[..q];
    } else {
      q := n;
    }
  }

  /** Over every interleaving: a turn is saved for a message only by a client that checked it when
      it was not marked. So a message is answered a second time only if the second call is checked
      before the first is marked, or the first crashes in between. */
  lemma SavedWasUnmarked(actions: seq<Action>, k: nat, id: string, m: string) returns (q: nat)
    requires SavesMessage(actions, k, id, m)
    ensures q < k && ChecksUnmarked(actions, q, actions[k].c, id, m)
  {
    q := WasUnmarked(actions[..k], actions[k].c, id, m);
    assert actions[..k][..q] == actions[..q];
  }

  // ----- A condition under which a message is answered once -----

  predicate InCall(cl: Client) {
    Active(cl) || cl.Marking?
  }

  predicate InCallOn(st: State, c: nat, key: Key) {
    InCall(ClientOf(st, c)) && ClientOf(st, c).call.key == key
  }

  /** Calls on a key are made one after the other, each through its mark, and no client crashes
      between saving a turn for the key and marking its message. */
  ghost predicate OneByOne(actions: seq<Action>, key: Key) {
    forall k :: 0 <= k < |actions| ==> StepOneByOne(Before(actions, k), actions[k], key)
  }

  ghost predicate StepOneByOne(st: State, a: Action, key: Key) {
    && (a.Begin? && a.key == key && ClientOf(st, a.c).Idle? ==> forall c :: !InCallOn(st, c, key))
    && (a.Crash? ==> !(ClientOf(st, a.c).Marking? && InCallOn(st, a.c, key)))
  }

  ghost predicate OneAtMost(st: State, key: Key) {
    forall c, d :: InCallOn(st, c, key) && InCallOn(st, d, key) ==> c == d
  }

  ghost predicate IsMarking(st: State, c: nat, id: string, m: string) {
    ClientOf(st, c).Marking? && ClientOf(st, c).s.id == id && ClientOf(st, c).call.message == Some(m)
  }

  /** What was saved for the key's session is marked, or about to be. */
  ghost predicate SavedAreMarked(st: State, key: Key) {
    forall r, m :: r in st.db.rows && r.key == key && (r.id, m) in st.saved && (r.id, m) !in st.db.processed ==>
      exists c :: IsMarking(st, c, r.id, m)
  }

  /** Who is past its check on the key has a message for which nothing was saved. */
  ghost predicate TurnsAreNew(st: State, key: Key) {
    forall c :: TurnIsNew(st, c, key)
  }

  ghost predicate TurnIsNew(st: State, c: nat, key: Key) {
    var cl := ClientOf(st, c);
    PastCheck(cl) && cl.call.key == key && cl.call.message.Some? ==> (cl.s.id, cl.call.message.value) !in st.saved
  }

  ghost predicate Orderly(st: State, key: Key) {
    OneAtMost(st, key) && SavedAreMarked(st, key) && TurnsAreNew(st, key)
  }

  lemma InCallStep(st: State, a: Action, c: nat, key: Key)
    requires InCallOn(Step(st, a), c, key)
    ensures InCallOn(st, c, key) || (a.Begin? && a.key == key && a.c == c && ClientOf(st, c).Idle?)
  {
  }

  lemma OneAtMostKept(st: State, a: Action, key: Key)
    requires OneAtMost(st, key) && StepOneByOne(st, a, key)
    ensures OneAtMost(Step(st, a), key)
  {
    forall c, d | InCallOn(Step(st, a), c, key) && InCallOn(Step(st, a), d, key) ensures c == d {
      InCallStep(st, a, c, key);
      InCallStep(st, a, d, key);
    }
  }

  /** A save is the only step that adds to what is saved. */
  lemma SavedStep(st: State, a: Action, id: string, m: string)
    requires (id, m) in Step(st, a).saved && (id, m) !in st.saved
    ensures a.Save? && IsMarking(Step(st, a), a.c, id, m)
  {
  }

  /** A marking client marks, or crashes. */
  lemma MarkedRow(st: State, c: nat, id: string, m: string)
    requires Inv(st) && IsMarking(st, c, id, m)
    ensures (id, m) in Step(st, Mark(c)).db.processed
  {
    assert ClientOk(st, ClientOf(st, c));
    var q :| q in st.db.rows && q.SameIdentity(ClientOf(st, c).s);
    assert HasId(st.db.rows, id);
  }

  lemma MarkingWaits(st: State, a: Action)
    requires ClientOf(st, a.c).Marking? && !a.Mark? && !a.Crash?
    ensures Step(st, a) == st
  {
  }

  lemma MarkingStep(st: State, a: Action, c: nat, id: string, m: string)
    requires Inv(st) && IsMarking(st, c, id, m)
    ensures || IsMarking(Step(st, a), c, id, m)
            || (id, m) in Step(st, a).db.processed
            || (a.Crash? && a.c == c)
  {
    if a.c != c {
      OtherStep(st, a, c);
    } else if a.Mark? {
      MarkedRow(st, c, id, m);
    } else if !a.Crash? {
      MarkingWaits(st, a);
    }
  }

  lemma MarkerOnKey(st: State, c: nat, r: Session, m: string)
    requires Inv(st) && r in st.db.rows && IsMarking(st, c, r.id, m)
    ensures InCallOn(st, c, r.key)
  {
    assert ClientOk(st, ClientOf(st, c));
    RowOf(st.db.rows, ClientOf(st, c).s, r);
  }

  /** Sessions with saved messages have drawn ids. */
  ghost predicate SavedAreDrawn(st: State) {
    forall p :: p in st.saved ==> p.0 in st.drawn
  }

  lemma SavedDrawnStep(st: State, a: Action)
    requires Inv(st) && SavedAreDrawn(st)
    ensures SavedAreDrawn(Step(st, a))
  {
    assert ClientOk(st, ClientOf(st, a.c));
  }

  /** A row of a session with saved messages had a row of its id and key before. */
  lemma RowBefore(st: State, a: Action, r: Session, m: string) returns (q: Session)
    requires Inv(st) && SavedAreDrawn(st) && r in Step(st, a).db.rows && (r.id, m) in st.saved
    ensures q in st.db.rows && q.id == r.id && q.key == r.key
  {
    assert ClientOk(st, ClientOf(st, a.c));
    RowStep(st, a, r);
    if Writes(st, a, r.id) {
      q :| q in st.db.rows && q.SameIdentity(ClientOf(st, a.c).s);
    } else {
      q := r;
    }
  }

  lemma SavedIsMarkedKept(st: State, a: Action, key: Key, r: Session, m: string)
    requires Inv(st) && SavedAreDrawn(st) && SavedAreMarked(st, key) && StepOneByOne(st, a, key)
    requires r in Step(st, a).db.rows && r.key == key
    requires (r.id, m) in Step(st, a).saved && (r.id, m) !in Step(st, a).db.processed
    ensures exists c :: IsMarking(Step(st, a), c, r.id, m)
  {
    StepKeeps(st, a);
    if (r.id, m) !in st.saved {
      SavedStep(st, a, r.id, m);
    } else {
      var q := RowBefore(st, a, r, m);
      var c: nat :| IsMarking(st, c, q.id, m);
      MarkingStep(st, a, c, q.id, m);
      MarkerOnKey(st, c, q, m);
    }
  }

  /** The row of what a client holds. */
  lemma HeldRow(st: State, c: nat) returns (r: Session)
    requires Inv(st) && Holds(ClientOf(st, c))
    ensures r in st.db.rows && r.id == ClientOf(st, c).s.id && r.key == ClientOf(st, c).call.key
  {
    assert ClientOk(st, ClientOf(st, c));
    r :| r in st.db.rows && r.SameIdentity(ClientOf(st, c).s);
  }

  lemma JustCheckedIsNew(st: State, c: nat, key: Key)
    requires Inv(st) && Orderly(st, key) && ClientOf(st, c).Checking? && ClientOf(st, c).call.key == key
    requires var cl := ClientOf(st, c); cl.call.message.Some? && !Marked(st, cl.call, cl.s)
    ensures (ClientOf(st, c).s.id, ClientOf(st, c).call.message.value) !in st.saved
  {
    var m := ClientOf(st, c).call.message.value;
    var r := HeldRow(st, c);
    if (r.id, m) in st.saved {
      var d: nat :| IsMarking(st, d, r.id, m);
      MarkerOnKey(st, d, r, m);
      assert InCallOn(st, c, key);
    }
  }

  lemma StillNew(st: State, a: Action, c: nat, key: Key)
    requires Inv(st) && Inv(Step(st, a)) && OneAtMost(Step(st, a), key)
    requires PastCheck(ClientOf(Step(st, a), c)) && ClientOf(Step(st, a), c).call.key == key
    requires var cl := ClientOf(Step(st, a), c);
      cl.call.message.Some? && (cl.s.id, cl.call.message.value) !in st.saved
    ensures var cl := ClientOf(Step(st, a), c); (cl.s.id, cl.call.message.value) !in Step(st, a).saved
  {
    var next, cl := Step(st, a), ClientOf(Step(st, a), c);
    if (cl.s.id, cl.call.message.value) in next.saved {
      SavedStep(st, a, cl.s.id, cl.call.message.value);
      var r := HeldRow(next, c);
      MarkerOnKey(next, a.c, r, cl.call.message.value);
      assert InCallOn(next, c, key);
    }
  }

  lemma TurnIsNewKept(st: State, a: Action, c: nat, key: Key)
    requires Inv(st) && Orderly(st, key) && StepOneByOne(st, a, key)
    ensures TurnIsNew(Step(st, a), c, key)
  {
    var cl := ClientOf(Step(st, a), c);
    if PastCheck(cl) && cl.call.key == key && cl.call.message.Some? {
      StepKeeps(st, a);
      OneAtMostKept(st, a, key);
      PastCheckStep(st, a, c);
      if PastCheck(ClientOf(st, c)) {
        assert TurnIsNew(st, c, key);
      } else {
        JustCheckedIsNew(st, c, key);
      }
      StillNew(st, a, c, key);
    }
  }

  lemma OrderlyStep(st: State, a: Action, key: Key)
    requires Inv(st) && SavedAreDrawn(st) && Orderly(st, key) && StepOneByOne(st, a, key)
    ensures Orderly(Step(st, a), key)
  {
    OneAtMostKept(st, a, key);
    forall r, m | r in Step(st, a).db.rows && r.key == key &&
                  (r.id, m) in Step(st, a).saved && (r.id, m) !in Step(st, a).db.processed
      ensures exists c :: IsMarking(Step(st, a), c, r.id, m)
    {
      SavedIsMarkedKept(st, a, key, r, m);
    }
    forall c ensures TurnIsNew(Step(st, a), c, key) {
      TurnIsNewKept(st, a, c, key);
    }
  }

  lemma OneByOnePrefix(actions: seq<Action>, key: Key, n: nat)
    requires OneByOne(actions, key) && n <= |actions|
    ensures OneByOne(actions[..n], key)
  {
    forall k | 0 <= k < n ensures StepOneByOne(Before(actions[..n], k), actions[..n][k], key) {
      assert actions[..n][..k] == actions[..k];
      assert StepOneByOne(Before(actions, k), actions[k], key);
    }
  }

  lemma {:induction false} OrderlyRun(actions: seq<Action>, key: Key)
    requires OneByOne(actions, key)
    ensures Orderly(Run(INITIAL, actions), key) && SavedAreDrawn(Run(INITIAL, actions))
  {
    if actions != [] {
      var n := |actions| - 1;
      OneByOnePrefix(actions, key, n);
      OrderlyRun(actions[..n], key);
      Reachable(actions[..n]);
      LastStep(actions);
      assert StepOneByOne(Before(actions, n), actions[n], key);
      OrderlyStep(Before(actions, n), actions[n], key);
      SavedDrawnStep(Before(actions, n), actions[n]);
    }
  }

  lemma SavedGrows(actions: seq<Action>, j: nat, k: nat)
    requires j <= k <= |actions|
    ensures Before(actions, j).saved <= Before(actions, k).saved
  {
    assert actions[..k] == actions[..j] + actions[j..k];
    Reachable(actions[..j]);
    RunKeeps(Before(actions, j), actions[j..k]);
    StateAfterSplits(Step, INITIAL, actions[..j], actions[j..k]);
  }

  lemma SaveRecords(st: State, a: Action, id: string, m: string)
    requires Writes(st, a, id) && ClientOf(st, a.c).call.message == Some(m)
    ensures (id, m) in Step(st, a).saved
  {
  }

  lemma SaveIsOnRecord(actions: seq<Action>, j: nat, k: nat, id: string, m: string)
    requires j < k <= |actions| && SavesMessage(actions, j, id, m)
    ensures (id, m) in Before(actions, k).saved
  {
    SaveRecords(Before(actions, j), actions[j], id, m);
    assert actions[..j + 1][..j] == actions[..j];
    LastStep(actions[..j + 1]);
    SavedGrows(actions, j + 1, k);
  }

  /** If calls on a key are made one by one, a message is answered at most once on it: no two turns
      are saved for the same message of the key's session. */
  lemma AnsweredAtMostOnce(actions: seq<Action>, r: Session, m: string, j: nat, k: nat)
    requires OneByOne(actions, r.key) && r in Run(INITIAL, actions).db.rows
    requires SavesMessage(actions, j, r.id, m) && SavesMessage(actions, k, r.id, m)
    ensures j == k
  {
    if j < k {
      SavedTwiceIsOnce(actions, r, m, j, k);
    } else if k < j {
      SavedTwiceIsOnce(actions, r, m, k, j);
    }
  }

  lemma SavesNew(st: State, key: Key, a: Action, id: string, m: string)
    requires Orderly(st, key) && Writes(st, a, id)
    requires ClientOf(st, a.c).call.key == key && ClientOf(st, a.c).call.message == Some(m)
    ensures (id, m) !in st.saved
  {
    assert TurnIsNew(st, a.c, key);
  }

  /** The client that saves a session is in a call on its key. */
  lemma SaverIsOnKey(actions: seq<Action>, k: nat, r: Session)
    requires r in Run(INITIAL, actions).db.rows && WritesAt(actions, k, r.id)
    ensures ClientOf(Before(actions, k), actions[k].c).call.key == r.key
  {
    Reachable(actions[..k]);
    var row := HeldRow(Before(actions, k), actions[k].c);
    RowIsForever(actions, k, row, r);
  }

  lemma SavedTwiceIsOnce(actions: seq<Action>, r: Session, m: string, j: nat, k: nat)
    requires OneByOne(actions, r.key) && r in Run(INITIAL, actions).db.rows
    requires j < k && SavesMessage(actions, j, r.id, m)
    ensures !SavesMessage(actions, k, r.id, m)
  {
    if SavesMessage(actions, k, r.id, m) {
      OneByOnePrefix(actions, r.key, k);
      OrderlyRun(actions[..k], r.key);
      SaverIsOnKey(actions, k, r);
      SavesNew(Before(actions, k), r.key, actions[k], r.id, m);
      SaveIsOnRecord(actions, j, k, r.id, m);
    }
  }

  // ----- A run in which a message is answered twice -----

  function MessageCall(key: Key, backend: string, since: nat): Call {
    Call(key, backend, 50, Some("m"), since)
  }

  /** A client that is about to check passes, completes a turn and saves it. */
  function Answers(st: State, c: nat): State {
    Step(Step(Step(st, Check(c)), Turn(c, Null, 1.0)), Action.Save(c))
  }

  lemma AnswersFrom(st: State, c: nat, call: Call, s: Session)
    requires ClientOf(st, c) == Checking(call, s) && call.message == Some("m") && st.db.rows == [s]
    requires (s.id, "m") !in st.db.processed && s.rounds < s.maxRounds
    ensures var next := Answers(st, c);
      && next.db == st.db.(rows := [s.WithTurn(Null, 1.0)])
      && forall d :: d != c ==> ClientOf(next, d) == ClientOf(st, d)
  {
    var checked := Step(st, Check(c));
    assert ClientOf(checked, c) == Turning(call, s) && checked.db == st.db;
    TurnCompletes(checked, c, call, s, 1.0);
    var turned := Step(checked, Turn(c, Null, 1.0));
    assert Patch(s, s.WithTurn(Null, 1.0)) == s.WithTurn(Null, 1.0);
    assert ClientOf(turned, c) == Saving(call, s.WithTurn(Null, 1.0));
  }

  lemma CallFinds(st: State, c: nat, key: Key, backend: string, s: Session)
    requires ClientOf(st, c) == Idle && st.db.rows == [s] && s.key == key
    ensures var next := Step(Step(st, Begin(c, key, backend, 50, Some("m"))), Select(c));
      ClientOf(next, c) == Checking(MessageCall(key, backend, |st.log|), s) && next.db == st.db
  {
    var called := Step(st, Begin(c, key, backend, 50, Some("m")));
    assert ClientOf(called, c) == Selecting(MessageCall(key, backend, |st.log|)) && called.db == st.db;
    assert Find([s], key) == Some(s);
  }

  lemma CallCreates(key: Key, backend: string)
    ensures var st := Step(Step(Step(INITIAL, Begin(0, key, backend, 50, Some("m"))), Select(0)), Insert(0, "u"));
      var s := NewSession("u", key, backend, 50);
      && ClientOf(st, 0) == Checking(MessageCall(key, backend, 0), s) && ClientOf(st, 1) == Idle
      && st.db == RowStore.Database([s], {})
  {
    var a := Step(INITIAL, Begin(0, key, backend, 50, Some("m")));
    assert ClientOf(a, 0) == Selecting(MessageCall(key, backend, 0)) && a.db.rows == [];
    var b := Step(a, Select(0));
    assert ClientOf(b, 0) == Inserting(MessageCall(key, backend, 0)) && b.db == a.db;
  }

  /** A client answers a message, and crashes before it marks it; a second client answers it again. */
  function AnswerTwice(key: Key, backend: string): State {
    var created := Step(Step(Step(INITIAL, Begin(0, key, backend, 50, Some("m"))), Select(0)), Insert(0, "u"));
    var crashed := Step(Answers(created, 0), Crash(0));
    Answers(Step(Step(crashed, Begin(1, key, backend, 50, Some("m"))), Select(1)), 1)
  }

  lemma CrashAnswersTwice(key: Key, backend: string)
    ensures |AnswerTwice(key, backend).db.rows| == 1 && AnswerTwice(key, backend).db.rows[0].rounds == 2
  {
    var s := NewSession("u", key, backend, 50);
    var created := Step(Step(Step(INITIAL, Begin(0, key, backend, 50, Some("m"))), Select(0)), Insert(0, "u"));
    CallCreates(key, backend);
    AnswersFrom(created, 0, MessageCall(key, backend, 0), s);
    var crashed := Step(Answers(created, 0), Crash(0));
    assert crashed.db == Answers(created, 0).db;
    OtherStep(Answers(created, 0), Crash(0), 1);
    CallFinds(crashed, 1, key, backend, s.WithTurn(Null, 1.0));
    var found := Step(Step(crashed, Begin(1, key, backend, 50, Some("m"))), Select(1));
    AnswersFrom(found, 1, MessageCall(key, backend, |crashed.log|), s.WithTurn(Null, 1.0));
  }
}
