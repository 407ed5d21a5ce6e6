/** What reaches the record of a run, over every interleaving: the arguments it was started with,
    its handler's reports and its handler's outcome. */
module WorkflowRecords {
  import opened Wrappers
  import opened Runs
  import opened Runtime
  import opened WorkflowRuns
  import opened WorkflowSystem

  lemma ExecuteOn(before: seq<Action>, a: Action, after: seq<Action>)
    ensures Execute(INITIAL, before + [a] + after) == Execute(Step(Execute(INITIAL, before), a), after)
  {
    assert (before + [a])[..|before|] == before;
    StateAfterSplits(Step, INITIAL, before + [a], after);
  }

  // ----- Arguments -----

  /** A run keeps the id, name, parameters and owner it was started with, and is no rerun. */
  lemma StartKeepsArguments(before: seq<Action>, id: string, name: string, params: Json, owner: Option<string>,
                            after: seq<Action>)
    requires id !in Execute(INITIAL, before).runs
    ensures var a := Start(id, name, params, owner);
      && id in Execute(INITIAL, before + [a]).runs
      && Execute(INITIAL, before + [a]).runs[id] == Run(id, name, params, Pending, [], Null, None, None, owner)
      && id in Execute(INITIAL, before + [a] + after).runs
      && var r := Execute(INITIAL, before + [a] + after).runs[id];
        r.id == id && r.name == name && r.params == params && r.owner == owner && r.rerunOf == None
  {
    var a := Start(id, name, params, owner);
    assert (before + [a])[..|before|] == before;
    OnlyForward(before + [a], after, id);
  }

  predicate ByRerunner(a: Action, c: nat) {
    (a.ReadForRerun? || a.Rerun?) && a.c == c
  }

  lemma WorkersLeaveRerunners(st: State, id: string)
    requires id in st.workers
    ensures id in st.runs ==> Read(st, id, st.workers[id]).rerunners == st.rerunners
    ensures id in st.log ==> Saved(st, id, st.workers[id]).rerunners == st.rerunners
  {
  }

  lemma CreateLeavesRerunners(st: State, run: Run)
    ensures Create(st, run).rerunners == st.rerunners
  {
  }

  lemma RerunnerStep(st: State, a: Action, c: nat)
    requires c in st.rerunners && !ByRerunner(a, c)
    ensures var next := Step(st, a); c in next.rerunners && next.rerunners[c] == st.rerunners[c]
  {
    if a.Rerun? {
      OtherRerunner(st, a.c, a.id, c);
    } else if a.Start? {
      CreateLeavesRerunners(st, NewRun(a.id, a.name, a.params, None, a.owner));
    } else if (a.WorkerRead? || a.WorkerSave?) && a.id in st.workers {
      WorkersLeaveRerunners(st, a.id);
    }
  }

  lemma OtherRerunner(st: State, d: nat, id: string, c: nat)
    requires c in st.rerunners && d != c
    ensures var next := Step(st, Rerun(d, id)); c in next.rerunners && next.rerunners[c] == st.rerunners[c]
  {
    if d in st.rerunners {
      var r, st0 := st.rerunners[d], st.(rerunners := st.rerunners - {d});
      CreateLeavesRerunners(st0, NewRun(id, r.name, r.params, Some(r.id), r.owner));
    }
  }

  lemma {:induction false} RerunnerWaits(st: State, actions: seq<Action>, c: nat)
    requires c in st.rerunners && forall i :: 0 <= i < |actions| ==> !ByRerunner(actions[i], c)
    ensures var next := Execute(st, actions); c in next.rerunners && next.rerunners[c] == st.rerunners[c]
  {
    if actions != [] {
      RerunnerWaits(st, actions[..|actions| - 1], c);
      RerunnerStep(Execute(st, actions[..|actions| - 1]), actions[|actions| - 1], c);
    }
  }

  lemma RerunStepIs(st: State, c: nat, r: Run, id: string)
    requires c in st.rerunners && st.rerunners[c] == r && id !in st.runs
    ensures Step(st, Rerun(c, id)).runs ==
            if r.Terminal() then st.runs[id := Run(id, r.name, r.params, Pending, [], Null, None, Some(r.id), r.owner)]
            else st.runs
  {
  }

  lemma ReadStepIs(st: State, c: nat, earlier: string)
    requires earlier in st.runs
    ensures var next := Step(st, ReadForRerun(c, earlier));
      c in next.rerunners && next.rerunners[c] == st.runs[earlier]
  {
  }

  /** A rerun copies the name, parameters and owner of the run that was read, and points to it, if
      that run was terminal; otherwise it creates nothing. */
  lemma RerunCopies(before: seq<Action>, c: nat, earlier: string, between: seq<Action>, id: string)
    requires earlier in Execute(INITIAL, before).runs
    requires forall i :: 0 <= i < |between| ==> !ByRerunner(between[i], c)
    requires id !in Execute(INITIAL, before + [ReadForRerun(c, earlier)] + between).runs
    ensures var r := Execute(INITIAL, before).runs[earlier];
      var st := Execute(INITIAL, before + [ReadForRerun(c, earlier)] + between);
      Step(st, Rerun(c, id)).runs ==
      if r.Terminal() then st.runs[id := Run(id, r.name, r.params, Pending, [], Null, None, Some(earlier), r.owner)]
      else st.runs
  {
    var st0 := Execute(INITIAL, before);
    ExecuteKeeps(INITIAL, before);
    assert RunOk(st0, earlier);
    RunMeans(st0, earlier);
    ReadStepIs(st0, c, earlier);
    ExecuteOn(before, ReadForRerun(c, earlier), between);
    RerunnerWaits(Step(st0, ReadForRerun(c, earlier)), between, c);
    RerunStepIs(Execute(INITIAL, before + [ReadForRerun(c, earlier)] + between), c, st0.runs[earlier], id);
  }

  // ----- Reports and outcomes -----

  /** The action is one of the run's own worker. */
  predicate ByWorker(a: Action, id: string) {
    (a.WorkerRead? || a.WorkerSave? || a.ReportRead? || a.HandlerEnds? || a.Die?) && a.id == id
  }

  ghost predicate NotByWorker(actions: seq<Action>, id: string) {
    forall i :: 0 <= i < |actions| ==> !ByWorker(actions[i], id)
  }

  /** The run's record and its worker. */
  ghost predicate At(st: State, id: string, r: Run, w: Worker) {
    id in st.runs && id in st.workers && st.runs[id] == r && st.workers[id] == w
  }

  lemma CreateLeaves(st: State, run: Run, id: string, r: Run, w: Worker)
    requires At(st, id, r, w)
    ensures At(Create(st, run), id, r, w)
  {
  }

  lemma OtherWorker(st: State, other: string, id: string, r: Run, w: Worker)
    requires At(st, id, r, w) && other != id
    ensures other in st.runs && other in st.workers ==> At(Read(st, other, st.workers[other]), id, r, w)
    ensures other in st.log && other in st.workers && Follows(st, other) ==>
              At(Saved(st, other, st.workers[other]), id, r, w)
  {
  }

  /** What a worker is about to save is its own run. */
  ghost predicate Follows(st: State, id: string) {
    id in st.workers ==>
      match st.workers[id]
      case GotPending(s) => s.id == id
      case Reporting(s, _) => s.id == id
      case Ending(s, _) => s.id == id
      case _ => true
  }

  lemma OtherServiceStep(st: State, a: Action, id: string, r: Run, w: Worker)
    requires At(st, id, r, w) && (a.Start? || a.ReadForRerun? || a.Rerun? || a.Shutdown?)
    ensures At(Step(st, a), id, r, w)
  {
    if a.Start? {
      CreateLeaves(st, NewRun(a.id, a.name, a.params, None, a.owner), id, r, w);
    } else if a.Rerun? && a.c in st.rerunners {
      var s, st0 := st.rerunners[a.c], st.(rerunners := st.rerunners - {a.c});
      CreateLeaves(st0, NewRun(a.id, s.name, s.params, Some(s.id), s.owner), id, r, w);
    }
  }

  lemma OtherStoreStep(st: State, a: Action, id: string, r: Run, w: Worker)
    requires Inv(st) && At(st, id, r, w) && (a.WorkerRead? || a.WorkerSave?) && a.id != id
    ensures At(Step(st, a), id, r, w)
  {
    if a.id in st.workers {
      WorkerFollows(st, a.id);
      OtherWorker(st, a.id, id, r, w);
    }
  }

  lemma OtherHandlerStep(st: State, a: Action, id: string, r: Run, w: Worker)
    requires At(st, id, r, w) && (a.ReportRead? || a.HandlerEnds? || a.Die?) && a.id != id
    ensures At(Step(st, a), id, r, w)
  {
  }

  lemma OthersStep(st: State, a: Action, id: string, r: Run, w: Worker)
    requires Inv(st) && At(st, id, r, w) && !ByWorker(a, id)
    ensures At(Step(st, a), id, r, w)
  {
    if a.WorkerRead? || a.WorkerSave? {
      OtherStoreStep(st, a, id, r, w);
    } else if a.ReportRead? || a.HandlerEnds? || a.Die? {
      OtherHandlerStep(st, a, id, r, w);
    } else {
      OtherServiceStep(st, a, id, r, w);
    }
  }

  /** Whatever others do, a run and its worker wait for each other. */
  lemma {:induction false} OthersWait(st: State, actions: seq<Action>, id: string, r: Run, w: Worker)
    requires Inv(st) && At(st, id, r, w) && NotByWorker(actions, id)
    ensures At(Execute(st, actions), id, r, w) && Inv(Execute(st, actions))
  {
    if actions != [] {
      OthersWait(st, actions[..|actions| - 1], id, r, w);
      OthersStep(Execute(st, actions[..|actions| - 1]), actions[|actions| - 1], id, r, w);
      StepKeeps(Execute(st, actions[..|actions| - 1]), actions[|actions| - 1]);
    }
  }

  /** After a step of the worker and whatever others do, the worker saves. */
  function SavedAfter(before: seq<Action>, id: string, a: Action, between: seq<Action>): State {
    Step(Execute(INITIAL, before + [a] + between), WorkerSave(id))
  }

  lemma WorkerWaits(before: seq<Action>, id: string, a: Action, between: seq<Action>, w: Worker)
    requires NotByWorker(between, id)
    requires var st := Execute(INITIAL, before); id in st.runs && At(Step(st, a), id, st.runs[id], w)
    ensures var st, next := Execute(INITIAL, before), Execute(INITIAL, before + [a] + between);
      At(next, id, st.runs[id], w) && Inv(next)
  {
    var st := Execute(INITIAL, before);
    ExecuteKeeps(INITIAL, before);
    StepKeeps(st, a);
    ExecuteOn(before, a, between);
    OthersWait(Step(st, a), between, id, st.runs[id], w);
  }

  lemma SaveWrites(st: State, id: string, r: Run, w: Worker, u: Update, after: Worker)
    requires Inv(st) && At(st, id, r, w)
    requires (w == GotPending(r) && u == Begin && after == Started) ||
             (u.Report? && w == Reporting(r, u.e) && after == Handling) ||
             (w == Ending(r, u) && after == Done)
    ensures At(Step(st, WorkerSave(id)), id, Apply(r, u), after)
  {
    assert RunOk(st, id);
  }

  /** A queued run that its worker reads and saves is running. */
  lemma BeginIsKept(before: seq<Action>, id: string, between: seq<Action>)
    requires var st := Execute(INITIAL, before); id in st.runs && id in st.workers && st.workers[id].Queued?
    requires NotByWorker(between, id)
    ensures var st, st' := Execute(INITIAL, before), SavedAfter(before, id, WorkerRead(id), between);
      id in st'.runs && st'.runs[id] == st.runs[id].(status := Running)
  {
    var r := Execute(INITIAL, before).runs[id];
    WorkerWaits(before, id, WorkerRead(id), between, GotPending(r));
    SaveWrites(Execute(INITIAL, before + [WorkerRead(id)] + between), id, r, GotPending(r), Begin, Started);
  }

  /** A valid report of a handler is appended to its run's progress, whatever others do meanwhile;
      an invalid one, with a fraction below 0 or above 1, changes nothing. */
  lemma ReportIsKept(before: seq<Action>, id: string, e: Progress, between: seq<Action>)
    requires var st := Execute(INITIAL, before); id in st.runs && id in st.workers && st.workers[id].Handling?
    requires NotByWorker(between, id)
    ensures var st := Execute(INITIAL, before);
      if e.fraction.Some? && !(0.0 <= e.fraction.value <= 1.0) then Step(st, ReportRead(id, e)) == st
      else
        var st' := SavedAfter(before, id, ReportRead(id, e), between);
        && id in st'.runs && id in st'.workers
        && st'.runs[id] == st.runs[id].(progress := st.runs[id].progress + [e]) && st'.workers[id].Handling?
  {
    var r := Execute(INITIAL, before).runs[id];
    if e.Valid() {
      WorkerWaits(before, id, ReportRead(id, e), between, Reporting(r, e));
      SaveWrites(Execute(INITIAL, before + [ReportRead(id, e)] + between), id, r, Reporting(r, e), Report(e), Handling);
    }
  }

  /** A handler's outcome is recorded, whatever others do meanwhile: its result and success, or its
      error and failure. */
  lemma OutcomeIsKept(before: seq<Action>, id: string, u: Update, between: seq<Action>)
    requires var st := Execute(INITIAL, before); id in st.runs && id in st.workers && st.workers[id].Handling?
    requires NotByWorker(between, id) && (u.Succeed? || u.Fail?)
    ensures var r, st' := Execute(INITIAL, before).runs[id], SavedAfter(before, id, HandlerEnds(id, u), between);
      && id in st'.runs
      && (u.Succeed? ==> st'.runs[id] == r.(status := Success, result := u.result, error := None))
      && (u.Fail? ==> st'.runs[id] == r.(status := Failed, result := Null, error := Some(u.error)))
  {
    var r := Execute(INITIAL, before).runs[id];
    WorkerWaits(before, id, HandlerEnds(id, u), between, Ending(r, u));
    SaveWrites(Execute(INITIAL, before + [HandlerEnds(id, u)] + between), id, r, Ending(r, u), u, Done);
  }

  // ----- After shutdown -----

  ghost predicate Unattended(st: State, id: string, r: Run) {
    st.shut && id in st.runs && st.runs[id] == r && id !in st.workers
  }

  lemma CreateUnattended(st: State, run: Run, id: string, r: Run)
    requires Unattended(st, id, r)
    ensures Unattended(Create(st, run), id, r)
  {
  }

  lemma WorkerUnattended(st: State, other: string, id: string, r: Run)
    requires Unattended(st, id, r) && other in st.workers && Follows(st, other)
    ensures other in st.runs ==> Unattended(Read(st, other, st.workers[other]), id, r)
    ensures other in st.log ==> Unattended(Saved(st, other, st.workers[other]), id, r)
  {
  }

  lemma UnattendedServiceStep(st: State, a: Action, id: string, r: Run)
    requires Unattended(st, id, r) && (a.Start? || a.ReadForRerun? || a.Rerun? || a.Shutdown?)
    ensures Unattended(Step(st, a), id, r)
  {
    if a.Start? {
      CreateUnattended(st, NewRun(a.id, a.name, a.params, None, a.owner), id, r);
    } else if a.Rerun? && a.c in st.rerunners {
      var s, st0 := st.rerunners[a.c], st.(rerunners := st.rerunners - {a.c});
      CreateUnattended(st0, NewRun(a.id, s.name, s.params, Some(s.id), s.owner), id, r);
    }
  }

  lemma UnattendedHandlerStep(st: State, a: Action, id: string, r: Run)
    requires Unattended(st, id, r) && (a.ReportRead? || a.HandlerEnds? || a.Die?)
    ensures Unattended(Step(st, a), id, r)
  {
  }

  lemma NoWorkerStep(st: State, a: Action, id: string, r: Run)
    requires Inv(st) && Unattended(st, id, r)
    ensures Unattended(Step(st, a), id, r)
  {
    if a.WorkerRead? || a.WorkerSave? {
      if a.id in st.workers {
        WorkerFollows(st, a.id);
        WorkerUnattended(st, a.id, id, r);
      }
    } else if a.ReportRead? || a.HandlerEnds? || a.Die? {
      UnattendedHandlerStep(st, a, id, r);
    } else {
      UnattendedServiceStep(st, a, id, r);
    }
  }

  lemma WorkerFollows(st: State, id: string)
    requires Inv(st) && id in st.workers
    ensures Follows(st, id)
  {
    assert RunOk(st, id);
    RunMeans(st, id);
  }

  lemma {:induction false} NobodyWorks(st: State, actions: seq<Action>, id: string, r: Run)
    requires Inv(st) && Unattended(st, id, r)
    ensures Inv(Execute(st, actions)) && Unattended(Execute(st, actions), id, r)
  {
    if actions != [] {
      NobodyWorks(st, actions[..|actions| - 1], id, r);
      NoWorkerStep(Execute(st, actions[..|actions| - 1]), actions[|actions| - 1], id, r);
      StepKeeps(Execute(st, actions[..|actions| - 1]), actions[|actions| - 1]);
    }
  }

  /** A run started after the executor was shut down stays pending for good. */
  lemma ShutRunsStay(before: seq<Action>, id: string, name: string, params: Json, owner: Option<string>,
                     after: seq<Action>)
    requires Execute(INITIAL, before).shut && id !in Execute(INITIAL, before).runs
    ensures var st := Execute(INITIAL, before + [Start(id, name, params, owner)] + after);
      id in st.runs && st.runs[id] == Run(id, name, params, Pending, [], Null, None, None, owner)
  {
    var st, a := Execute(INITIAL, before), Start(id, name, params, owner);
    ExecuteKeeps(INITIAL, before);
    StepKeeps(st, a);
    ExecuteOn(before, a, after);
    assert id !in st.workers;
    NobodyWorks(Step(st, a), after, id, NewRun(id, name, params, None, owner));
  }
}
