/** The workflow service on the in-memory store with the inline executor
    (engine/workflows/service.py, memory_store.py), and the tool bridge in front of it
    (engine/workflows/bridge.py). */
module WorkflowService {
  import opened Wrappers
  import opened Runtime
  import opened Names
  import opened Sequences
  import opened WorkflowRuns

  class MemoryWorkflowStore {
    var runs: map<string, Run>

    constructor ()
      ensures runs == map[]
    {
      runs := map[];
    }

    method Save(r: Run)
      modifies this
      ensures runs == old(runs)[r.id := r]
    {
      runs := runs[r.id := r];
    }

    /** None: WorkflowRunNotFound. */
    method Get(id: string) returns (r: Option<Run>)
      ensures r == if id in runs then Some(runs[id]) else None
    {
      r := if id in runs then Some(runs[id]) else None;
    }
  }

  /** What a handler does: its reports, of which the invalid ones raise and are caught by it, and
      how it ends. */
  datatype Script = Script(reports: seq<Progress>, outcome: Update)

  function ValidReports(reports: seq<Progress>): seq<Update> {
    if reports == [] then []
    else
      ValidReports(reports[..|reports| - 1]) +
      if reports[|reports| - 1].Valid() then [Report(reports[|reports| - 1])] else []
  }

  /** The life an execution writes. */
  function Life(script: Script): seq<Update> {
    [Begin] + ValidReports(script.reports) + [script.outcome]
  }

  lemma {:induction false} ReplayConcat(r: Run, a: seq<Update>, b: seq<Update>)
    ensures Replay(r, a + b) == Replay(Replay(r, a), b)
  {
    if b == [] {
      assert a + b == a;
    } else {
      ReplayConcat(r, a, b[..|b| - 1]);
      assert (a + b)[..|a + b| - 1] == a + b[..|b| - 1];
    }
  }

  lemma ReplayLife(r: Run, script: Script)
    ensures Replay(r, Life(script)) ==
            Apply(Replay(Apply(r, Begin), ValidReports(script.reports)), script.outcome)
  {
    ReplayConcat(r, [Begin], ValidReports(script.reports));
    assert [Begin][..0] == [];
    ReplaySnoc(r, [Begin] + ValidReports(script.reports), script.outcome);
  }

  lemma {:induction false} ValidReportsAre(reports: seq<Progress>)
    ensures forall u :: u in ValidReports(reports) ==> u.Report? && u.e.Valid()
  {
    if reports != [] {
      ValidReportsAre(reports[..|reports| - 1]);
    }
  }

  lemma LifeFinishes(script: Script)
    requires script.outcome.Final()
    ensures Finished(Life(script))
  {
    ValidReportsAre(script.reports);
    var front := [Begin] + ValidReports(script.reports);
    assert Life(script)[..|Life(script)| - 1] == front;
    forall i | 1 <= i < |front| ensures front[i].Report? && front[i].e.Valid() {
      assert front[i] == ValidReports(script.reports)[i - 1];
      assert ValidReports(script.reports)[i - 1] in ValidReports(script.reports);
    }
  }

  /** What `report_progress` accepts. */
  predicate Accepted(e: Progress) {
    e.fraction == None || (0.0 <= e.fraction.value && e.fraction.value <= 1.0)
  }

  lemma ReportsOfValid(reports: seq<Progress>, k: nat, at: seq<nat>)
    requires k < |reports| && Picks(at, reports[..k], Reports(ValidReports(reports[..k])), e => Accepted(e))
    ensures var at' := if Accepted(reports[k]) then at + [k] else at;
      Picks(at', reports[..k + 1], Reports(ValidReports(reports[..k + 1])), e => Accepted(e))
  {
    assert reports[..k + 1] == reports[..k] + [reports[k]] && reports[..k + 1][..k] == reports[..k];
    PicksSnoc(at, reports[..k], Reports(ValidReports(reports[..k])), e => Accepted(e), reports[k]);
    if Accepted(reports[k]) {
      var log := ValidReports(reports[..k]);
      assert (log + [Report(reports[k])])[..|log|] == log;
    } else {
      assert ValidReports(reports[..k + 1]) == ValidReports(reports[..k]);
    }
  }

  lemma {:induction false} ReportsPick(reports: seq<Progress>, k: nat) returns (at: seq<nat>)
    requires k <= |reports|
    ensures Picks(at, reports[..k], Reports(ValidReports(reports[..k])), e => Accepted(e))
  {
    at := [];
    if k > 0 {
      at := ReportsPick(reports, k - 1);
      ReportsOfValid(reports, k - 1, at);
      at := if Accepted(reports[k - 1]) then at + [k - 1] else at;
    }
  }

  lemma {:induction false} ReportsOfLife(script: Script, n: nat)
    requires script.outcome.Final() && n <= |ValidReports(script.reports)|
    ensures Reports([Begin] + ValidReports(script.reports)[..n]) == Reports(ValidReports(script.reports)[..n])
  {
    var valid := ValidReports(script.reports);
    if n == 0 {
      assert [Begin] + valid[..0] == [Begin] && [Begin][..0] == [];
    } else {
      ReportsOfLife(script, n - 1);
      assert ([Begin] + valid[..n])[..n] == [Begin] + valid[..n - 1] && valid[..n][..n - 1] == valid[..n - 1];
    }
  }

  /** The record an inline execution leaves: the arguments, the accepted reports in order, and the
      handler's outcome. */
  lemma InlineRunIs(id: string, name: string, params: Json, rerunOf: Option<string>, owner: Option<string>,
                    script: Script) returns (at: seq<nat>)
    requires script.outcome.Final()
    ensures var r := Replay(NewRun(id, name, params, rerunOf, owner), Life(script));
      && Picks(at, script.reports, r.progress, e => Accepted(e))
      && r == (match script.outcome
               case Succeed(result) => Run(id, name, params, Success, r.progress, result, None, rerunOf, owner)
               case Fail(error) => Run(id, name, params, Failed, r.progress, Null, Some(error), rerunOf, owner)
               case _ => r)
  {
    var r0, valid := NewRun(id, name, params, rerunOf, owner), ValidReports(script.reports);
    LifeFinishes(script);
    LifecycleMeans(r0, Life(script));
    at := ReportsPick(script.reports, |script.reports|);
    assert script.reports[..|script.reports|] == script.reports && valid[..|valid|] == valid;
    ReportsOfLife(script, |valid|);
    assert Life(script)[..|valid| + 1] == [Begin] + valid && Life(script)[|valid| + 1] == script.outcome;
  }

  datatype RerunResult = RunNotFound | NotTerminal | NotRegistered | Reran(r: Run)

  class WorkflowService {
    const store: MemoryWorkflowStore
    const registered: set<string>

    constructor (store: MemoryWorkflowStore, registered: set<string>)
      ensures this.store == store && this.registered == registered
    {
      this.store, this.registered := store, registered;
    }

    /** `WorkflowContext.report_progress`; false is its ValueError. */
    method ReportProgress(id: string, e: Progress) returns (ok: bool)
      requires id in store.runs && store.runs[id].id == id
      modifies store
      ensures ok == e.Valid()
      ensures store.runs == if ok then old(store.runs)[id := Apply(old(store.runs)[id], Report(e))] else old(store.runs)
    {
      if e.fraction.Some? && !(0.0 <= e.fraction.value <= 1.0) {
        return false;
      }
      var run := store.Get(id);
      store.Save(run.value.WithProgress(e));
      ok := true;
    }

    /** The handler's reports, one after the other. */
    method ReportAll(id: string, reports: seq<Progress>)
      requires id in store.runs && store.runs[id].id == id
      modifies store
      ensures store.runs == old(store.runs)[id := Replay(old(store.runs)[id], ValidReports(reports))]
      ensures store.runs[id].id == id
    {
      ghost var first := store.runs[id];
      for i := 0 to |reports|
        invariant store.runs == old(store.runs)[id := Replay(first, ValidReports(reports[..i]))]
        invariant store.runs[id].id == id
      {
        assert reports[..i + 1][..i] == reports[..i];
        var ok := ReportProgress(id, reports[i]);
        if ok {
          ReplaySnoc(first, ValidReports(reports[..i]), Report(reports[i]));
        } else {
          assert ValidReports(reports[..i + 1]) == ValidReports(reports[..i]);
        }
      }
      assert reports[..|reports|] == reports;
    }

    /** `_execute`: the run's record becomes the replay of the life its handler led. */
    method Execute(id: string, script: Script)
      requires id in store.runs && store.runs[id].id == id && script.outcome.Final()
      modifies store
      ensures store.runs == old(store.runs)[id := Replay(old(store.runs)[id], Life(script))]
    {
      ghost var first := store.runs[id];
      var run := store.Get(id);
      store.Save(run.value.WithStatus(Running));
      ReportAll(id, script.reports);
      run := store.Get(id);
      match script.outcome {
        case Succeed(result) => store.Save(run.value.WithResult(result));
        case Fail(error) => store.Save(run.value.WithError(error));
      }
      ReplayLife(first, script);
    }

    /** `run` with the inline executor; None is WorkflowNotRegistered. */
    method Start(name: string, params: Json, rerunOf: Option<string>, owner: Option<string>,
                 newId: string, script: Script) returns (r: Option<Run>)
      requires newId !in store.runs && script.outcome.Final()
      modifies store
      ensures name !in registered ==> r == None && store.runs == old(store.runs)
      ensures name in registered ==>
                r == Some(Replay(NewRun(newId, name, params, rerunOf, owner), Life(script))) &&
                store.runs == old(store.runs)[newId := r.value]
    {
      if name !in registered {
        return None;
      }
      store.Save(NewRun(newId, name, params, rerunOf, owner));
      Execute(newId, script);
      r := store.Get(newId);
    }

    /** `rerun`: only of a terminal run, with its name, parameters and owner. */
    method Rerun(id: string, newId: string, script: Script) returns (r: RerunResult)
      requires newId !in store.runs && script.outcome.Final()
      modifies store
      ensures !r.Reran? ==> store.runs == old(store.runs)
      ensures r.RunNotFound? <==> id !in old(store.runs)
      ensures r.NotRegistered? <==>
        id in old(store.runs) && old(store.runs)[id].Terminal() && old(store.runs)[id].name !in registered
      ensures r.NotTerminal? <==> id in old(store.runs) && !old(store.runs)[id].Terminal()
      ensures r.Reran? ==>
                var p := old(store.runs)[id];
                r.r == Replay(NewRun(newId, p.name, p.params, Some(id), p.owner), Life(script)) &&
                store.runs == old(store.runs)[newId := r.r]
    {
      var earlier := store.Get(id);
      if earlier.None? {
        return RunNotFound;
      }
      var p := earlier.value;
      if p.status != Success && p.status != Failed {
        return NotTerminal;
      }
      var made := Start(p.name, p.params, Some(id), p.owner, newId, script);
      if made.None? {
        return NotRegistered;
      }
      r := Reran(made.value);
    }
  }

  // ----- The bridge -----

  datatype Principal = Principal(user: string, workspace: string)

  /** Permissions at one moment. */
  datatype Policy = Policy(
    access: set<(string, string)>,
    allowed: map<string, set<string>>,
    denied: set<(string, string, string)>)
  {
    predicate MayAccess(p: Principal) {
      (p.user, p.workspace) in access
    }

    predicate Allows(workspace: string, name: string) {
      workspace in allowed && name in allowed[workspace]
    }

    predicate MayRun(p: Principal, name: string) {
      (p.user, p.workspace, name) !in denied
    }

    /** All gates open. */
    predicate Permits(p: Principal, name: string) {
      MayAccess(p) && NameOk(p.workspace) && Allows(p.workspace, name) && MayRun(p, name)
    }
  }

  datatype Access = NotFound | NotAllowed | InvalidWorkspace | Granted(r: Run)

  datatype Invocation = Refused | BadWorkspace | Unregistered | Invoked(id: string, status: Status)

  class WorkflowToolBridge {
    const service: WorkflowService

    constructor (service: WorkflowService)
      ensures this.service == service
    {
      this.service := service;
    }

    /** A run starts exactly when every gate is open and the workflow is registered, and then it
        belongs to the caller's workspace. */
    method Invoke(name: string, params: Json, p: Principal, policy: Policy, newId: string, script: Script)
      returns (r: Invocation)
      requires newId !in service.store.runs && script.outcome.Final()
      modifies service.store
      ensures r.Invoked? || r.Unregistered? <==>
        (p.user, p.workspace) in policy.access && NameOk(p.workspace) && p.workspace in policy.allowed &&
        name in policy.allowed[p.workspace] && (p.user, p.workspace, name) !in policy.denied
      ensures r.Invoked? ==> name in service.registered
      ensures r.Unregistered? ==> name !in service.registered
      ensures r.BadWorkspace? <==> (p.user, p.workspace) in policy.access && !NameOk(p.workspace)
      ensures !r.Invoked? ==> service.store.runs == old(service.store.runs)
      ensures r.Invoked? ==>
                r.id == newId && newId in service.store.runs &&
                service.store.runs == old(service.store.runs)[newId := service.store.runs[newId]] &&
                service.store.runs[newId] ==
                  Replay(NewRun(newId, name, params, None, Some(p.workspace)), Life(script)) &&
                r.status == service.store.runs[newId].status
    {
      if !policy.MayAccess(p) {
        return Refused;
      }
      if !NameOk(p.workspace) {
        return BadWorkspace;
      }
      if !policy.Allows(p.workspace, name) {
        return Refused;
      }
      if !policy.MayRun(p, name) {
        return Refused;
      }
      var run := service.Start(name, params, None, Some(p.workspace), newId, script);
      if run.None? {
        return Unregistered;
      }
      LifeFinishes(script);
      LifecycleMeans(NewRun(newId, name, params, None, Some(p.workspace)), Life(script));
      r := Invoked(run.value.id, run.value.status);
    }

    /** A run is handed out exactly when it exists, belongs to the caller's workspace, and every
        gate is open now. */
    method Get(id: string, p: Principal, policy: Policy) returns (a: Access)
      ensures a == Reads(service.store.runs, policy, p, id)
      ensures a.NotFound? <==> id !in service.store.runs
      ensures a.Granted? <==>
        id in service.store.runs && service.store.runs[id].owner == Some(p.workspace) &&
        (p.user, p.workspace) in policy.access && NameOk(p.workspace) && p.workspace in policy.allowed &&
        service.store.runs[id].name in policy.allowed[p.workspace] &&
        (p.user, p.workspace, service.store.runs[id].name) !in policy.denied
      ensures a.Granted? ==> a.r == service.store.runs[id]
    {
      var found := service.store.Get(id);
      if found.None? {
        return NotFound;
      }
      var run := found.value;
      if !policy.MayAccess(p) {
        return NotAllowed;
      }
      if run.owner != Some(p.workspace) {
        return NotAllowed;
      }
      if !NameOk(p.workspace) {
        return InvalidWorkspace;
      }
      if !policy.Allows(p.workspace, run.name) {
        return NotAllowed;
      }
      if !policy.MayRun(p, run.name) {
        return NotAllowed;
      }
      a := Granted(run);
    }
  }

  function Reads(runs: map<string, Run>, policy: Policy, p: Principal, id: string): Access {
    if id !in runs then NotFound
    else if !policy.MayAccess(p) || runs[id].owner != Some(p.workspace) then NotAllowed
    else if !NameOk(p.workspace) then InvalidWorkspace
    else if policy.Permits(p, runs[id].name) then Granted(runs[id])
    else NotAllowed
  }
}

/** Rerun chains, and who can read them. */
module WorkflowForest {
  import opened Wrappers
  import opened Names
  import opened WorkflowSystem
  import opened WorkflowService

  /** The run a chain of reruns goes back to. */
  function Root(st: State, id: string): string
    decreases if id in st.order then st.order[id] else 0
  {
    if id in st.runs && id in st.order && st.runs[id].rerunOf.Some? &&
       st.runs[id].rerunOf.value in st.order && st.order[st.runs[id].rerunOf.value] < st.order[id]
    then Root(st, st.runs[id].rerunOf.value)
    else id
  }

  lemma {:induction false} RootShares(st: State, id: string)
    requires Inv(st) && id in st.runs
    ensures var root := Root(st, id);
      && root in st.runs && st.runs[root].rerunOf == None
      && st.runs[root].name == st.runs[id].name
      && st.runs[root].params == st.runs[id].params
      && st.runs[root].owner == st.runs[id].owner
    decreases if id in st.order then st.order[id] else 0
  {
    assert RunOk(st, id) && ParentOk(st, id);
    if st.runs[id].rerunOf.Some? {
      RootShares(st, st.runs[id].rerunOf.value);
    }
  }

  /** Over any execution: a rerun points to a run created earlier and already terminal, so chains
      end; and a whole chain shares the name, parameters and owner of its root. */
  lemma RerunForest(actions: seq<Action>, id: string)
    requires id in Execute(INITIAL, actions).runs
    ensures var st := Execute(INITIAL, actions);
      var r, root := st.runs[id], Root(st, id);
      && (r.rerunOf.Some? ==>
            r.rerunOf.value in st.order && id in st.order && st.order[r.rerunOf.value] < st.order[id] &&
            r.rerunOf.value in st.runs && st.runs[r.rerunOf.value].Terminal())
      && root in st.runs && st.runs[root].rerunOf == None
      && st.runs[root].name == r.name && st.runs[root].params == r.params && st.runs[root].owner == r.owner
  {
    ExecuteKeeps(INITIAL, actions);
    var st := Execute(INITIAL, actions);
    assert RunOk(st, id) && ParentOk(st, id);
    RootShares(st, id);
  }

  /** Isolation: over any execution and whatever the permissions are now, a principal reads a run
      exactly when the root of its chain belongs to the principal's workspace and the permissions
      hold now for the root's workflow. */
  lemma ReadsOwnChainsOnly(actions: seq<Action>, policy: Policy, p: Principal, id: string)
    requires id in Execute(INITIAL, actions).runs
    ensures var st := Execute(INITIAL, actions);
      var root := Root(st, id);
      root in st.runs &&
      (Reads(st.runs, policy, p, id).Granted? <==>
         st.runs[root].owner == Some(p.workspace) &&
         (p.user, p.workspace) in policy.access && NameOk(p.workspace) && p.workspace in policy.allowed &&
         st.runs[root].name in policy.allowed[p.workspace] &&
         (p.user, p.workspace, st.runs[root].name) !in policy.denied)
  {
    RerunForest(actions, id);
  }
}
