/** Submitters, readers, reruns and one worker per run on a shared run store, interleaved at every
    store access (engine/workflows/service.py, contracts.py, memory_store.py, executor.py). */
module WorkflowSystem {
  import opened Wrappers
  import opened Runs
  import opened Runtime
  import opened WorkflowRuns

  /** A worker between two store accesses. A handler reports, returns or raises Exception as it
      likes, and does not report after it has ended. */
  datatype Worker =
    | Queued
    | GotPending(r: Run)              // read; about to save it as RUNNING
    | Started                         // about to read the parameters
    | Handling                        // the handler runs
    | Reporting(r: Run, e: Progress)  // report_progress has read; about to save
    | Ending(r: Run, u: Update)       // the handler ended and the run was read; about to save
    | Done
    | Died                            // the process went away

  /** `order`, `first` and `log` record history; what steps read of them only goes into the history
      they extend. */
  datatype State = State(
    runs: map<string, Run>,
    workers: map<string, Worker>,
    rerunners: map<nat, Run>,         // reruns that have read their old run
    shut: bool,                       // the executor was shut down
    order: map<string, nat>,
    first: map<string, Run>,
    log: map<string, seq<Update>>)

  const INITIAL := State(map[], map[], map[], false, map[], map[], map[])

  datatype Action =
    | Start(id: string, name: string, params: Json, owner: Option<string>)
    | ReadForRerun(c: nat, earlier: string)
    | Rerun(c: nat, id: string)
    | Shutdown
    | WorkerRead(id: string)
    | WorkerSave(id: string)
    | ReportRead(id: string, e: Progress)
    | HandlerEnds(id: string, u: Update)
    | Die(id: string)

  /** Save a new run and submit its task; after shutdown the submission raises and nobody will
      run it. The id is a fresh uuid. */
  function Create(st: State, r: Run): State {
    if r.id in st.runs then st
    else
      st.(runs := st.runs[r.id := r],
          workers := if st.shut then st.workers else st.workers[r.id := Queued],
          order := st.order[r.id := |st.runs|],
          first := st.first[r.id := r],
          log := st.log[r.id := []])
  }

  function SetWorker(st: State, id: string, w: Worker): State {
    st.(workers := st.workers[id := w])
  }

  /** The worker of `id` saves what it makes of the run it read. */
  function SaveAs(st: State, id: string, r: Run, u: Update, w: Worker): State
    requires id in st.log
  {
    SetWorker(st, id, w).(runs := st.runs[id := Apply(r, u)], log := st.log[id := st.log[id] + [u]])
  }

  function Read(st: State, id: string, w: Worker): State
    requires id in st.runs
  {
    match w
    case Queued => SetWorker(st, id, GotPending(st.runs[id]))
    case Started => SetWorker(st, id, Handling)
    case _ => st
  }

  function Saved(st: State, id: string, w: Worker): State
    requires id in st.log
  {
    match w
    case GotPending(r) => SaveAs(st, id, r, Begin, Started)
    case Reporting(r, e) => SaveAs(st, id, r, Report(e), Handling)
    case Ending(r, u) => SaveAs(st, id, r, u, Done)
    case _ => st
  }

  /** One step. An action that is not enabled changes nothing. */
  function Step(st: State, a: Action): State {
    match a
    case Start(id, name, params, owner) => Create(st, NewRun(id, name, params, None, owner))
    case ReadForRerun(c, earlier) =>
      if earlier in st.runs then st.(rerunners := st.rerunners[c := st.runs[earlier]]) else st
    case Rerun(c, id) =>
      if c in st.rerunners && st.rerunners[c].Terminal() then
        var r := st.rerunners[c];
        Create(st.(rerunners := st.rerunners - {c}), NewRun(id, r.name, r.params, Some(r.id), r.owner))
      else st.(rerunners := st.rerunners - {c})  // WorkflowNotTerminal
    case Shutdown => st.(shut := true)
    case WorkerRead(id) => if id in st.workers && id in st.runs then Read(st, id, st.workers[id]) else st
    case WorkerSave(id) => if id in st.workers && id in st.log then Saved(st, id, st.workers[id]) else st
    case ReportRead(id, e) =>
      if id in st.workers && id in st.runs && st.workers[id].Handling? && e.Valid()
      then SetWorker(st, id, Reporting(st.runs[id], e)) else st
    case HandlerEnds(id, u) =>
      if id in st.workers && id in st.runs && st.workers[id].Handling? && u.Final()
      then SetWorker(st, id, Ending(st.runs[id], u)) else st
    case Die(id) => if id in st.workers then SetWorker(st, id, Died) else st
  }

  function Execute(st: State, actions: seq<Action>): State {
    StateAfter(Step, st, actions)
  }

  // ----- Invariants -----

  ghost predicate WorkerOk(r: Run, log: seq<Update>, w: Worker) {
    match w
    case Queued => log == []
    case GotPending(s) => log == [] && s == r
    case Started => Active(log)
    case Handling => Active(log)
    case Reporting(s, e) => Active(log) && s == r && e.Valid()
    case Ending(s, u) => Active(log) && s == r && u.Final()
    case Done => Finished(log)
    case Died => Lifecycle(log)
  }

  /** A run's record is the replay of its log on the record it was created with. */
  ghost predicate RunOk(st: State, id: string) {
    && id in st.runs && id in st.first && id in st.log && id in st.order
    && st.first[id] == NewRun(id, st.first[id].name, st.first[id].params, st.first[id].rerunOf, st.first[id].owner)
    && st.runs[id] == Replay(st.first[id], st.log[id])
    && (if id in st.workers then WorkerOk(st.runs[id], st.log[id], st.workers[id]) else st.log[id] == [])
  }

  /** A rerun refers to an earlier run that has finished, and shares its name, parameters and
      owner. */
  ghost predicate ParentOk(st: State, id: string)
    requires id in st.runs
  {
    var r := st.runs[id];
    r.rerunOf.Some? ==>
      && r.rerunOf.value in st.runs && r.rerunOf.value in st.order && id in st.order
      && st.order[r.rerunOf.value] < st.order[id]
      && st.runs[r.rerunOf.value].Terminal()
      && r.name == st.runs[r.rerunOf.value].name
      && r.params == st.runs[r.rerunOf.value].params
      && r.owner == st.runs[r.rerunOf.value].owner
  }

  ghost predicate TablesOk(st: State) {
    && (forall id :: id in st.workers || id in st.log || id in st.order ==> id in st.runs)
    && (forall id :: id in st.order ==> st.order[id] < |st.runs|)
    && (forall c :: c in st.rerunners && st.rerunners[c].Terminal() ==>
          st.rerunners[c].id in st.runs && st.runs[st.rerunners[c].id] == st.rerunners[c])
  }

  ghost predicate Inv(st: State) {
    TablesOk(st) && forall id :: id in st.runs ==> RunOk(st, id) && ParentOk(st, id)
  }

  lemma RunMeans(st: State, id: string)
    requires RunOk(st, id)
    ensures Lifecycle(st.log[id])
    ensures st.runs[id].id == id
    ensures st.runs[id].Terminal() <==> Finished(st.log[id])
    ensures st.runs[id] == st.first[id].(status := st.runs[id].status, progress := st.runs[id].progress,
                                         result := st.runs[id].result, error := st.runs[id].error)
  {
    LifecycleMeans(st.first[id], st.log[id]);
  }

  /** Nothing about run `k` differs. */
  ghost predicate SameRun(st: State, st': State, k: string)
    requires RunOk(st, k)
  {
    && k in st'.runs && st'.runs[k] == st.runs[k]
    && k in st'.first && st'.first[k] == st.first[k]
    && k in st'.log && st'.log[k] == st.log[k]
    && k in st'.order && st'.order[k] == st.order[k]
    && (k in st'.workers <==> k in st.workers)
    && (k in st.workers ==> st'.workers[k] == st.workers[k])
  }

  /** Parents stay what they are: creation order and identities are fixed, and what is terminal
      stays so. */
  ghost predicate ParentsStay(st: State, st': State) {
    forall k :: k in st.runs ==>
      && k in st'.runs
      && (k in st.order ==> k in st'.order && st'.order[k] == st.order[k])
      && (st.runs[k].Terminal() ==> st'.runs[k] == st.runs[k])
      && st'.runs[k] == st.runs[k].(status := st'.runs[k].status, progress := st'.runs[k].progress,
                                    result := st'.runs[k].result, error := st'.runs[k].error)
  }

  lemma ParentStays(st: State, st': State, k: string)
    requires Inv(st) && ParentsStay(st, st') && k in st.runs
    ensures ParentOk(st', k)
  {
    assert ParentOk(st, k) && RunOk(st, k);
    if st.runs[k].rerunOf.Some? {
      assert RunOk(st, st.runs[k].rerunOf.value);
    }
  }

  /** What a run about to be created as a rerun must match. */
  ghost predicate Matches(st: State, r: Run) {
    r.rerunOf.Some? ==>
      && r.rerunOf.value in st.runs && st.runs[r.rerunOf.value].Terminal()
      && r.name == st.runs[r.rerunOf.value].name
      && r.params == st.runs[r.rerunOf.value].params
      && r.owner == st.runs[r.rerunOf.value].owner
  }

  lemma CreateTables(st: State, r: Run)
    requires TablesOk(st) && r.id !in st.runs
    ensures TablesOk(Create(st, r))
  {
    assert Create(st, r).runs.Keys == st.runs.Keys + {r.id};
  }

  lemma CreateKeeps(st: State, r: Run)
    requires Inv(st) && r == NewRun(r.id, r.name, r.params, r.rerunOf, r.owner) && Matches(st, r)
    ensures Inv(Create(st, r))
  {
    if r.id !in st.runs {
      var st' := Create(st, r);
      CreateTables(st, r);
      forall id | id in st'.runs ensures RunOk(st', id) && ParentOk(st', id) {
        if id == r.id {
          NewParentOk(st, r);
        } else {
          OldRunOk(st, r, id);
        }
      }
    }
  }

  lemma OldRunOk(st: State, r: Run, id: string)
    requires Inv(st) && r.id !in st.runs && id in st.runs
    ensures RunOk(Create(st, r), id) && ParentOk(Create(st, r), id)
  {
    assert RunOk(st, id) && SameRun(st, Create(st, r), id);
    CreateParentsStay(st, r);
    ParentStays(st, Create(st, r), id);
  }

  lemma CreateParentsStay(st: State, r: Run)
    requires Inv(st) && r.id !in st.runs
    ensures ParentsStay(st, Create(st, r))
  {
  }

  lemma NewParentOk(st: State, r: Run)
    requires Inv(st) && r.id !in st.runs && Matches(st, r)
    ensures ParentOk(Create(st, r), r.id)
  {
    if r.rerunOf.Some? {
      assert RunOk(st, r.rerunOf.value);
    }
  }

  /** A save by the run's worker: it writes what it read plus its own update, and since nobody
      else writes that run, no update is lost. */
  lemma SavedRunOk(st: State, id: string, u: Update, w: Worker)
    requires RunOk(st, id)
    requires WorkerOk(Apply(st.runs[id], u), st.log[id] + [u], w)
    ensures RunOk(SaveAs(st, id, st.runs[id], u, w), id)
  {
    ReplaySnoc(st.first[id], st.log[id], u);
  }

  lemma SaveParentOk(st: State, id: string, u: Update, w: Worker, k: string)
    requires Inv(st) && id in st.runs && RunOk(st, id) && !st.runs[id].Terminal() && k in st.runs
    ensures ParentOk(SaveAs(st, id, st.runs[id], u, w), k)
  {
    SaveParentsStay(st, id, u, w);
    ParentStays(st, SaveAs(st, id, st.runs[id], u, w), k);
  }

  lemma SaveParentsStay(st: State, id: string, u: Update, w: Worker)
    requires id in st.runs && id in st.log && !st.runs[id].Terminal()
    ensures ParentsStay(st, SaveAs(st, id, st.runs[id], u, w))
  {
  }

  lemma SaveTables(st: State, id: string, u: Update, w: Worker)
    requires TablesOk(st) && id in st.runs && id in st.log && !st.runs[id].Terminal()
    ensures TablesOk(SaveAs(st, id, st.runs[id], u, w))
  {
    assert SaveAs(st, id, st.runs[id], u, w).runs.Keys == st.runs.Keys;
  }

  lemma SaveKeeps(st: State, id: string, r: Run, u: Update, w: Worker)
    requires Inv(st) && id in st.runs && RunOk(st, id) && r == st.runs[id]
    requires !Finished(st.log[id])
    requires WorkerOk(Apply(r, u), st.log[id] + [u], w)
    ensures Inv(SaveAs(st, id, r, u, w))
  {
    var st' := SaveAs(st, id, r, u, w);
    RunMeans(st, id);
    SavedRunOk(st, id, u, w);
    SaveTables(st, id, u, w);
    forall k | k in st'.runs ensures RunOk(st', k) && ParentOk(st', k) {
      if k != id {
        assert RunOk(st, k) && SameRun(st, st', k);
      }
      SaveParentOk(st, id, u, w, k);
    }
  }

  lemma WorkerMoves(st: State, id: string, w: Worker)
    requires Inv(st) && id in st.runs && RunOk(st, id) && WorkerOk(st.runs[id], st.log[id], w)
    ensures Inv(SetWorker(st, id, w))
  {
    var st' := SetWorker(st, id, w);
    assert ParentsStay(st, st');
    forall k | k in st'.runs ensures RunOk(st', k) && ParentOk(st', k) {
      ParentStays(st, st', k);
      assert RunOk(st, k) && (k != id ==> SameRun(st, st', k));
    }
  }

  /** Steps that touch no run. */
  lemma OthersMove(st: State, rerunners: map<nat, Run>, shut: bool)
    requires Inv(st)
    requires forall c :: c in rerunners ==> (c in st.rerunners && rerunners[c] == st.rerunners[c]) ||
                                            (rerunners[c].id in st.runs && st.runs[rerunners[c].id] == rerunners[c])
    ensures Inv(st.(rerunners := rerunners, shut := shut))
  {
    var st' := st.(rerunners := rerunners, shut := shut);
    assert ParentsStay(st, st');
    forall k | k in st'.runs ensures RunOk(st', k) && ParentOk(st', k) {
      ParentStays(st, st', k);
      assert RunOk(st, k) && SameRun(st, st', k);
    }
  }

  lemma BeginSaveKeeps(st: State, id: string, r: Run)
    requires Inv(st) && id in st.workers && id in st.log && st.workers[id] == GotPending(r)
    ensures Inv(Saved(st, id, GotPending(r)))
  {
    assert RunOk(st, id);
    SaveKeeps(st, id, r, Begin, Started);
  }

  lemma ReportSaveKeeps(st: State, id: string, r: Run, e: Progress)
    requires Inv(st) && id in st.workers && id in st.log && st.workers[id] == Reporting(r, e)
    ensures Inv(Saved(st, id, Reporting(r, e)))
  {
    assert RunOk(st, id);
    SaveKeeps(st, id, r, Report(e), Handling);
  }

  lemma EndSaveKeeps(st: State, id: string, r: Run, u: Update)
    requires Inv(st) && id in st.workers && id in st.log && st.workers[id] == Ending(r, u)
    ensures Inv(Saved(st, id, Ending(r, u)))
  {
    assert RunOk(st, id);
    assert (st.log[id] + [u])[..|st.log[id]|] == st.log[id];
    SaveKeeps(st, id, r, u, Done);
  }

  lemma SavedKeeps(st: State, id: string)
    requires Inv(st) && id in st.workers && id in st.log
    ensures Inv(Saved(st, id, st.workers[id]))
  {
    match st.workers[id]
    case GotPending(r) => BeginSaveKeeps(st, id, r);
    case Reporting(r, e) => ReportSaveKeeps(st, id, r, e);
    case Ending(r, u) => EndSaveKeeps(st, id, r, u);
    case _ =>
  }

  lemma ReadKeeps(st: State, id: string)
    requires Inv(st) && id in st.workers && id in st.runs
    ensures Inv(Read(st, id, st.workers[id]))
  {
    assert RunOk(st, id);
    match st.workers[id]
    case Queued => WorkerMoves(st, id, GotPending(st.runs[id]));
    case Started => WorkerMoves(st, id, Handling);
    case _ =>
  }

  lemma RerunKeeps(st: State, c: nat, id: string)
    requires Inv(st)
    ensures Inv(Step(st, Rerun(c, id)))
  {
    OthersMove(st, st.rerunners - {c}, st.shut);
    if c in st.rerunners && st.rerunners[c].Terminal() {
      var r := st.rerunners[c];
      CreateKeeps(st.(rerunners := st.rerunners - {c}), NewRun(id, r.name, r.params, Some(r.id), r.owner));
    }
  }

  lemma ReadForRerunKeeps(st: State, c: nat, earlier: string)
    requires Inv(st) && earlier in st.runs
    ensures Inv(st.(rerunners := st.rerunners[c := st.runs[earlier]]))
  {
    assert RunOk(st, earlier);
    RunMeans(st, earlier);
    OthersMove(st, st.rerunners[c := st.runs[earlier]], st.shut);
  }

  /** Steps that leave the workers of earlier runs alone. */
  lemma ServiceStepKeeps(st: State, a: Action)
    requires Inv(st) && (a.Start? || a.ReadForRerun? || a.Rerun? || a.Shutdown?)
    ensures Inv(Step(st, a))
  {
    match a
    case Start(id, name, params, owner) => CreateKeeps(st, NewRun(id, name, params, None, owner));
    case ReadForRerun(c, earlier) => if earlier in st.runs { ReadForRerunKeeps(st, c, earlier); }
    case Rerun(c, id) => RerunKeeps(st, c, id);
    case Shutdown => OthersMove(st, st.rerunners, true);
  }

  lemma StoreStepKeeps(st: State, a: Action)
    requires Inv(st) && (a.WorkerRead? || a.WorkerSave?)
    ensures Inv(Step(st, a))
  {
    match a
    case WorkerRead(id) => if id in st.workers && id in st.runs { ReadKeeps(st, id); }
    case WorkerSave(id) => if id in st.workers && id in st.log { SavedKeeps(st, id); }
  }

  lemma ReportKeeps(st: State, id: string, e: Progress)
    requires Inv(st) && id in st.workers && id in st.runs && st.workers[id].Handling? && e.Valid()
    ensures Inv(SetWorker(st, id, Reporting(st.runs[id], e)))
  {
    assert RunOk(st, id);
    WorkerMoves(st, id, Reporting(st.runs[id], e));
  }

  lemma ReportStepKeeps(st: State, id: string, e: Progress)
    requires Inv(st)
    ensures Inv(Step(st, ReportRead(id, e)))
  {
    if id in st.workers && id in st.runs && st.workers[id].Handling? && e.Valid() {
      ReportKeeps(st, id, e);
    }
  }

  lemma EndKeeps(st: State, id: string, u: Update)
    requires Inv(st) && id in st.workers && id in st.runs && st.workers[id].Handling? && u.Final()
    ensures Inv(SetWorker(st, id, Ending(st.runs[id], u)))
  {
    assert RunOk(st, id);
    WorkerMoves(st, id, Ending(st.runs[id], u));
  }

  lemma EndStepKeeps(st: State, id: string, u: Update)
    requires Inv(st)
    ensures Inv(Step(st, HandlerEnds(id, u)))
  {
    if id in st.workers && id in st.runs && st.workers[id].Handling? && u.Final() {
      EndKeeps(st, id, u);
    }
  }

  lemma DieKeeps(st: State, id: string)
    requires Inv(st) && id in st.workers
    ensures Inv(SetWorker(st, id, Died))
  {
    assert RunOk(st, id);
    RunMeans(st, id);
    WorkerMoves(st, id, Died);
  }

  lemma DieStepKeeps(st: State, id: string)
    requires Inv(st)
    ensures Inv(Step(st, Die(id)))
  {
    if id in st.workers {
      DieKeeps(st, id);
    }
  }

  /** Steps of a handler. */
  lemma HandlerStepKeeps(st: State, a: Action)
    requires Inv(st) && (a.ReportRead? || a.HandlerEnds? || a.Die?)
    ensures Inv(Step(st, a))
  {
    match a
    case ReportRead(id, e) => ReportStepKeeps(st, id, e);
    case HandlerEnds(id, u) => EndStepKeeps(st, id, u);
    case Die(id) => DieStepKeeps(st, id);
  }

  lemma StepKeeps(st: State, a: Action)
    requires Inv(st)
    ensures Inv(Step(st, a))
  {
    if a.WorkerRead? || a.WorkerSave? {
      StoreStepKeeps(st, a);
    } else if a.ReportRead? || a.HandlerEnds? || a.Die? {
      HandlerStepKeeps(st, a);
    } else {
      ServiceStepKeeps(st, a);
    }
  }

  /** What a step keeps of every run: its creation record, and its log but for one more update. */
  ghost predicate Extends(st: State, st': State) {
    forall id :: id in st.runs && id in st.first && id in st.log ==>
      && id in st'.runs && id in st'.first && id in st'.log
      && st'.first[id] == st.first[id]
      && st.log[id] <= st'.log[id]
  }

  lemma SavedExtends(st: State, id: string, w: Worker)
    requires id in st.log
    ensures Extends(st, Saved(st, id, w))
  {
  }

  lemma CreateExtends(st: State, st0: State, r: Run)
    requires st0.runs == st.runs && st0.first == st.first && st0.log == st.log
    ensures Extends(st, Create(st0, r))
  {
  }

  lemma UnmovedExtends(st: State, st': State)
    requires st'.runs == st.runs && st'.first == st.first && st'.log == st.log
    ensures Extends(st, st')
  {
  }

  lemma StepExtends(st: State, a: Action)
    ensures Extends(st, Step(st, a))
  {
    if a.Start? {
      CreateExtends(st, st, NewRun(a.id, a.name, a.params, None, a.owner));
    } else if a.Rerun? && a.c in st.rerunners && st.rerunners[a.c].Terminal() {
      var r := st.rerunners[a.c];
      CreateExtends(st, st.(rerunners := st.rerunners - {a.c}), NewRun(a.id, r.name, r.params, Some(r.id), r.owner));
    } else if a.WorkerSave? && a.id in st.workers && a.id in st.log {
      SavedExtends(st, a.id, st.workers[a.id]);
    } else {
      UnmovedExtends(st, Step(st, a));
    }
  }

  lemma {:induction false} ExecuteKeeps(st: State, actions: seq<Action>)
    requires Inv(st)
    ensures Inv(Execute(st, actions)) && Extends(st, Execute(st, actions))
  {
    if actions != [] {
      var last, action := Execute(st, actions[..|actions| - 1]), actions[|actions| - 1];
      ExecuteKeeps(st, actions[..|actions| - 1]);
      StepKeeps(last, action);
      StepExtends(last, action);
    }
  }

  // ----- What every execution guarantees -----

  /** No update is ever lost: over every interleaving the record of a run is exactly the replay of
      its worker's saves, which form one life: PENDING, RUNNING, valid progress in order, then
      SUCCESS with a result or FAILED with an error. */
  lemma NoUpdateLost(actions: seq<Action>, id: string)
    requires id in Execute(INITIAL, actions).runs
    ensures var st := Execute(INITIAL, actions);
      && id in st.first && id in st.log
      && st.runs[id] == Replay(st.first[id], st.log[id])
      && Lifecycle(st.log[id])
      && (forall e :: e in st.runs[id].progress ==> e.Valid())
      && (st.runs[id].status == Success ==> st.runs[id].error == None)
      && (st.runs[id].status == Failed ==> st.runs[id].result == Null && st.runs[id].error.Some?)
  {
    ExecuteKeeps(INITIAL, actions);
    var st := Execute(INITIAL, actions);
    assert RunOk(st, id);
    LifecycleMeans(st.first[id], st.log[id]);
    if id in st.workers {
      RunMeans(st, id);
    }
  }

  /** Whenever a worker is about to save, what it read is still what is stored. */
  lemma SnapshotsAreCurrent(actions: seq<Action>, id: string)
    ensures var st := Execute(INITIAL, actions);
      id in st.workers && (st.workers[id].GotPending? || st.workers[id].Reporting? || st.workers[id].Ending?) ==>
        id in st.runs && st.workers[id].r == st.runs[id]
  {
    ExecuteKeeps(INITIAL, actions);
    var st := Execute(INITIAL, actions);
    if id in st.workers {
      assert RunOk(st, id);
    }
  }

  /** From any point on: a run keeps its identity, its progress only grows, its status only moves
      forward, and a terminal record never changes again. */
  lemma OnlyForward(before: seq<Action>, after: seq<Action>, id: string)
    requires id in Execute(INITIAL, before).runs
    ensures var r := Execute(INITIAL, before).runs[id];
      id in Execute(INITIAL, before + after).runs &&
      var r' := Execute(INITIAL, before + after).runs[id];
      && r' == r.(status := r'.status, progress := r'.progress, result := r'.result, error := r'.error)
      && r.progress <= r'.progress
      && (r.status == Running ==> r'.status != Pending)
      && (r.Terminal() ==> r' == r)
  {
    var st, st' := Execute(INITIAL, before), Execute(Execute(INITIAL, before), after);
    ExecuteKeeps(INITIAL, before);
    ExecuteKeeps(st, after);
    StateAfterSplits(Step, INITIAL, before, after);
    assert RunOk(st, id) && RunOk(st', id);
    RunMeans(st, id);
    RunMeans(st', id);
    LifecycleMeans(st.first[id], st.log[id]);
    LifecycleMeans(st'.first[id], st'.log[id]);
    ReportsPrefix(st.log[id], st'.log[id]);
    if Finished(st.log[id]) {
      FinishedIsLast(st.log[id], st'.log[id]);
    }
  }
}
