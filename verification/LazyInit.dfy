/** Lazy creation of the SQL engine behind a double-checked lock
    (adapters/persistence/sqlalchemy/store.py, `_ensure_engine` and `_engine_and_tables`).
    Threads interleave between any two accesses to shared fields. Engines are numbered as they
    are created, and a build's tables carry the number of its engine. */
module LazyInit {
  import opened Wrappers
  import opened Runs

  datatype Thread =
    | Outside
    | Entered                 // about to read _engine without the lock
    | Waiting                 // saw None; wants the lock
    | Locked                  // holds the lock; about to check again
    | Creating                // saw None again; about to call create_engine
    | Building(engine: nat)   // engine created; tables and CREATE TABLE to come
    | Disposing(engine: nat)  // the build failed with a SQLAlchemyError
    | Built(engine: nat)      // about to store _sessions
    | StoredSessions(engine: nat)
    | StoredProcessed(engine: nat)
    | Published               // _engine stored; still holds the lock
    | Failing                 // about to release the lock and raise
    | Returning               // lock released; about to read _engine and return it
    | HasEngine(engine: nat)  // _ensure_engine returned; about to read _sessions
    | HasSessions(engine: nat, sessions: Option<nat>)  // about to read _processed
    | Ready(engine: nat, sessions: Option<nat>, processed: Option<nat>)
    | Raised

  /** `leaked` records history: the engines whose build failed in a way the code does not catch.
      No step reads it. */
  datatype State = State(
    engine: Option<nat>,
    sessions: Option<nat>,
    processed: Option<nat>,
    lock: Option<nat>,
    threads: map<nat, Thread>,
    created: nat,
    disposed: set<nat>,
    leaked: set<nat>)

  const INITIAL := State(None, None, None, None, map[], 0, {}, {})

  /** How a call into SQLAlchemy ends: well, with a SQLAlchemyError, or with an exception of any
      other class. */
  datatype Ending = Succeeds | FailsInSql | FailsOtherwise

  /** Thread `t` takes its next step; if it calls into SQLAlchemy there, the call ends so. */
  datatype Action = Action(t: nat, ending: Ending)

  function ThreadOf(st: State, t: nat): Thread {
    if t in st.threads then st.threads[t] else Outside
  }

  function At(st: State, t: nat, th: Thread): State {
    st.(threads := st.threads[t := th])
  }

  function Step(st: State, a: Action): State {
    var t := a.t;
    match ThreadOf(st, t)
    case Outside => At(st, t, Entered)
    case Entered => At(st, t, if st.engine.Some? then HasEngine(st.engine.value) else Waiting)
    case Waiting => if st.lock.None? then At(st, t, Locked).(lock := Some(t)) else st
    case Locked =>
      if st.engine.Some? then At(st, t, HasEngine(st.engine.value)).(lock := None) else At(st, t, Creating)
    case Creating =>
      if a.ending.Succeeds? then At(st, t, Building(st.created)).(created := st.created + 1)
      else At(st, t, Failing)
    case Building(e) =>
      (match a.ending
       case Succeeds => At(st, t, Built(e))
       case FailsInSql => At(st, t, Disposing(e))
       case FailsOtherwise => At(st, t, Failing).(leaked := st.leaked + {e}))
    case Disposing(e) => At(st, t, Failing).(disposed := st.disposed + {e})
    case Built(e) => At(st, t, StoredSessions(e)).(sessions := Some(e))
    case StoredSessions(e) => At(st, t, StoredProcessed(e)).(processed := Some(e))
    case StoredProcessed(e) => At(st, t, Published).(engine := Some(e))
    case Published => At(st, t, Returning).(lock := None)
    case Failing => At(st, t, Raised).(lock := None)
    case Returning => if st.engine.Some? then At(st, t, HasEngine(st.engine.value)) else st
    case HasEngine(e) => At(st, t, HasSessions(e, st.sessions))
    case HasSessions(e, sessions) => At(st, t, Ready(e, sessions, st.processed))
    case Ready(_, _, _) => At(st, t, Outside)
    case Raised => At(st, t, Outside)
  }

  function Run(st: State, actions: seq<Action>): State {
    StateAfter(Step, st, actions)
  }

  predicate InLock(th: Thread) {
    !(th.Outside? || th.Entered? || th.Waiting? || th.Returning? || th.HasEngine? || th.HasSessions? ||
      th.Ready? || th.Raised?)
  }

  /** The engine a thread has created and neither published nor disposed. */
  function Pending(th: Thread): Option<nat> {
    match th
    case Building(e) => Some(e)
    case Disposing(e) => Some(e)
    case Built(e) => Some(e)
    case StoredSessions(e) => Some(e)
    case StoredProcessed(e) => Some(e)
    case _ => None
  }

  ghost predicate ThreadOk(st: State, t: nat) {
    var th := ThreadOf(st, t);
    && (InLock(th) <==> st.lock == Some(t))
    && (Pending(th).Some? ==> Pending(th).value < st.created && Pending(th).value !in st.disposed + st.leaked)
    && (InLock(th) && !th.Locked? && !th.Published? ==> st.engine.None?)
    && (th.StoredSessions? ==> st.sessions == Some(th.engine))
    && (th.StoredProcessed? ==> st.sessions == Some(th.engine) && st.processed == Some(th.engine))
    && (th.Published? || th.Returning? ==> st.engine.Some?)
    && (th.HasEngine? || th.HasSessions? || th.Ready? ==> st.engine == Some(th.engine))
    && (th.HasSessions? ==> th.sessions == Some(th.engine))
    && (th.Ready? ==> th.sessions == th.processed == Some(th.engine))
  }

  /** An engine is accounted for: published, disposed of, leaked, or still with the lock's holder. */
  ghost predicate Accounted(st: State, e: nat) {
    || st.engine == Some(e)
    || e in st.disposed
    || e in st.leaked
    || (st.lock.Some? && Pending(ThreadOf(st, st.lock.value)) == Some(e))
  }

  ghost predicate Inv(st: State) {
    && (forall t :: ThreadOk(st, t))
    && (st.lock.Some? ==> InLock(ThreadOf(st, st.lock.value)))
    && (st.engine.Some? ==>
          && st.sessions == st.processed == st.engine
          && st.engine.value < st.created && st.engine.value !in st.disposed + st.leaked)
    && (forall e :: 0 <= e < st.created ==> Accounted(st, e))
    && (forall e :: e in st.disposed + st.leaked ==> e < st.created)
    && st.disposed !! st.leaked
  }

  lemma StepKeepsMover(st: State, a: Action)
    requires Inv(st)
    ensures ThreadOk(Step(st, a), a.t)
  {
    assert ThreadOk(st, a.t);
  }

  lemma StepKeepsOther(st: State, a: Action, u: nat)
    requires Inv(st) && u != a.t
    ensures ThreadOk(Step(st, a), u)
  {
    assert ThreadOk(st, a.t) && ThreadOk(st, u);
  }

  lemma StepKeepsEngines(st: State, a: Action, e: nat)
    requires Inv(st) && e < Step(st, a).created
    ensures Accounted(Step(st, a), e)
  {
    assert ThreadOk(st, a.t);
    if e < st.created {
      assert Accounted(st, e);
    }
  }

  lemma StepKeeps(st: State, a: Action)
    requires Inv(st)
    ensures Inv(Step(st, a))
    ensures st.engine.Some? ==> Step(st, a).engine == st.engine
  {
    var st' := Step(st, a);
    assert ThreadOk(st, a.t);
    forall u ensures ThreadOk(st', u) {
      if u == a.t { StepKeepsMover(st, a); } else { StepKeepsOther(st, a, u); }
    }
    forall e | 0 <= e < st'.created ensures Accounted(st', e) {
      StepKeepsEngines(st, a, e);
    }
  }

  lemma {:induction false} RunKeeps(st: State, actions: seq<Action>)
    requires Inv(st)
    ensures Inv(Run(st, actions))
    ensures st.engine.Some? ==> Run(st, actions).engine == st.engine
  {
    if actions != [] {
      RunKeeps(st, actions[..|actions| - 1]);
      StepKeeps(Run(st, actions[..|actions| - 1]), actions[|actions| - 1]);
    }
  }

  /** What a caller holds: the published engine, and the tables of that engine's build. */
  predicate ReadyOk(st: State, th: Thread)
    requires th.Ready?
  {
    st.engine == th.sessions == th.processed == Some(th.engine)
  }

  /** Over every interleaving: at most one thread is inside the lock; a thread that got an engine
      got the published one, and then tables of the same build, never None; the published engine
      is not disposed. With the lock free, the engines that are neither published nor disposed are
      exactly those whose build failed with something other than a SQLAlchemyError; with the lock
      taken, its holder may have one more in its hands. */
  lemma InitIsSafe(actions: seq<Action>)
    ensures var st := Run(INITIAL, actions);
      && (forall t, u :: InLock(ThreadOf(st, t)) && InLock(ThreadOf(st, u)) ==> t == u)
      && (forall t :: ThreadOf(st, t).Ready? ==> ReadyOk(st, ThreadOf(st, t)))
      && (st.engine.Some? ==> st.engine.value !in st.disposed)
      && (forall e :: 0 <= e < st.created ==> Accounted(st, e))
      && (st.lock.None? ==> Unaccounted(st) == st.leaked)
  {
    RunKeeps(INITIAL, actions);
    var st := Run(INITIAL, actions);
    forall t, u | InLock(ThreadOf(st, t)) && InLock(ThreadOf(st, u)) ensures t == u {
      assert ThreadOk(st, t) && ThreadOk(st, u);
    }
    forall t | ThreadOf(st, t).Ready? ensures ReadyOk(st, ThreadOf(st, t)) {
      assert ThreadOk(st, t);
    }
    if st.lock.None? {
      UnaccountedLeaked(st);
    }
  }

  /** The engines created that are neither published nor disposed. */
  function Unaccounted(st: State): set<nat> {
    set e: nat | e < st.created && st.engine != Some(e) && e !in st.disposed
  }

  lemma UnaccountedLeaked(st: State)
    requires Inv(st) && st.lock.None?
    ensures Unaccounted(st) == st.leaked
  {
    forall e: nat | e in Unaccounted(st) ensures e in st.leaked {
      assert Accounted(st, e);
    }
    forall e | e in st.leaked ensures e in Unaccounted(st) {
      assert e in st.disposed + st.leaked;
    }
  }

  /** Action `k` is where the build of engine `e` fails with something other than a
      SQLAlchemyError. */
  ghost predicate LeaksAt(actions: seq<Action>, k: nat, e: nat) {
    && k < |actions|
    && ThreadOf(Run(INITIAL, actions[..k]), actions[k].t) == Building(e)
    && actions[k].ending == FailsOtherwise
  }

  /** The leaked engines are those whose build failed that way at some step. */
  lemma {:induction false} LeakedIff(actions: seq<Action>, e: nat)
    ensures e in Run(INITIAL, actions).leaked <==> exists k :: LeaksAt(actions, k, e)
  {
    if actions != [] {
      var n := |actions| - 1;
      LeakedIff(actions[..n], e);
      assert forall k :: 0 <= k < n ==> actions[..n][..k] == actions[..k];
      if k :| LeaksAt(actions[..n], k, e) {
        assert LeaksAt(actions, k, e);
      }
      if k :| LeaksAt(actions, k, e) {
        assert k == n || LeaksAt(actions[..n], k, e);
      }
      LeakStep(Run(INITIAL, actions[..n]), actions[n], e);
      assert LeaksAt(actions, n, e) <==>
             ThreadOf(Run(INITIAL, actions[..n]), actions[n].t) == Building(e) && actions[n].ending == FailsOtherwise;
    }
  }

  lemma LeakStep(st: State, a: Action, e: nat)
    ensures e in Step(st, a).leaked <==>
            e in st.leaked || (ThreadOf(st, a.t) == Building(e) && a.ending == FailsOtherwise)
  {
  }

  /** Once published, an engine is the one and only, whatever happens next. */
  lemma EngineIsForever(before: seq<Action>, after: seq<Action>)
    ensures Run(INITIAL, before).engine.Some? ==>
              Run(INITIAL, before + after).engine == Run(INITIAL, before).engine
  {
    RunKeeps(INITIAL, before);
    RunKeeps(Run(INITIAL, before), after);
    StateAfterSplits(Step, INITIAL, before, after);
  }

  function Repeat(t: nat, n: nat): seq<Action> {
    if n == 0 then [] else [Action(t, Succeeds)] + Repeat(t, n - 1)
  }

  /** How many steps of its own a thread is away from the tables, if its builds succeed. */
  function Distance(th: Thread): nat {
    match th
    case Disposing(_) => 17
    case Failing => 16
    case Raised => 15
    case Outside => 14
    case Entered => 13
    case Waiting => 12
    case Locked => 11
    case Creating => 10
    case Building(_) => 9
    case Built(_) => 8
    case StoredSessions(_) => 7
    case StoredProcessed(_) => 6
    case Published => 5
    case Returning => 4
    case HasEngine(_) => 2
    case HasSessions(_, _) => 1
    case _ => 0
  }

  /** A failed build leaves the store retryable: from any reachable state in which nobody else
      holds the lock, any thread, also one whose own build has just failed, gets an engine and its
      tables by its own steps alone, as long as its next build succeeds. */
  lemma {:induction false} Retryable(st: State, t: nat) returns (n: nat)
    requires Inv(st) && (st.lock.None? || st.lock == Some(t))
    ensures n <= Distance(ThreadOf(st, t))
    ensures ThreadOf(Run(st, Repeat(t, n)), t).Ready? && Run(st, Repeat(t, n)).engine.Some?
    decreases Distance(ThreadOf(st, t))
  {
    assert ThreadOk(st, t);
    if ThreadOf(st, t).Ready? {
      n := 0;
    } else {
      var a := Action(t, Succeeds);
      StepKeeps(st, a);
      n := Retryable(Step(st, a), t);
      StateAfterSplits(Step, st, [a], Repeat(t, n));
      assert [a][..0] == [] && [a] + Repeat(t, n) == Repeat(t, n + 1);
      n := n + 1;
    }
  }
}
