/** Workflow runs and what may happen to one (engine/workflows/contracts.py). Timestamps are left
    out. A result is Null until there is one. */
module WorkflowRuns {
  import opened Wrappers
  import opened Runtime

  datatype Status = Pending | Running | Success | Failed

  datatype Progress = Progress(message: string, step: Option<string>, fraction: Option<real>)
  {
    /** What `report_progress` accepts; on anything else it raises before touching the store. */
    predicate Valid() {
      fraction.Some? ==> 0.0 <= fraction.value <= 1.0
    }
  }

  datatype Run = Run(
    id: string,
    name: string,
    params: Json,
    status: Status,
    progress: seq<Progress>,
    result: Json,
    error: Option<string>,
    rerunOf: Option<string>,
    owner: Option<string>)
  {
    function WithStatus(s: Status): Run {
      this.(status := s)
    }

    function WithProgress(e: Progress): Run {
      this.(progress := progress + [e])
    }

    function WithResult(r: Json): Run {
      this.(status := Success, result := r, error := None)
    }

    function WithError(e: string): Run {
      this.(status := Failed, error := Some(e), result := Null)
    }

    predicate Terminal() {
      status == Success || status == Failed
    }
  }

  function NewRun(id: string, name: string, params: Json, rerunOf: Option<string>, owner: Option<string>): Run {
    Run(id, name, params, Pending, [], Null, None, rerunOf, owner)
  }

  /** What a worker does to its run. */
  datatype Update =
    | Begin
    | Report(e: Progress)
    | Succeed(result: Json)
    | Fail(error: string)
  {
    predicate Final() {
      Succeed? || Fail?
    }
  }

  function Apply(r: Run, u: Update): Run {
    match u
    case Begin => r.WithStatus(Running)
    case Report(e) => r.WithProgress(e)
    case Succeed(result) => r.WithResult(result)
    case Fail(error) => r.WithError(error)
  }

  function Replay(r: Run, log: seq<Update>): Run {
    if log == [] then r else Apply(Replay(r, log[..|log| - 1]), log[|log| - 1])
  }

  lemma ReplaySnoc(r: Run, log: seq<Update>, u: Update)
    ensures Replay(r, log + [u]) == Apply(Replay(r, log), u)
  {
    assert (log + [u])[..|log|] == log;
  }

  /** A worker that is running: begun once, then valid reports only. */
  ghost predicate Active(log: seq<Update>) {
    |log| > 0 && log[0] == Begin && forall i :: 1 <= i < |log| ==> log[i].Report? && log[i].e.Valid()
  }

  ghost predicate Finished(log: seq<Update>) {
    |log| > 1 && Active(log[..|log| - 1]) && log[|log| - 1].Final()
  }

  ghost predicate Lifecycle(log: seq<Update>) {
    log == [] || Active(log) || Finished(log)
  }

  function Reports(log: seq<Update>): seq<Progress> {
    if log == [] then []
    else Reports(log[..|log| - 1]) + if log[|log| - 1].Report? then [log[|log| - 1].e] else []
  }

  lemma {:induction false} ActiveMeans(r: Run, log: seq<Update>)
    requires Active(log)
    requires r == NewRun(r.id, r.name, r.params, r.rerunOf, r.owner)
    ensures Replay(r, log) == r.(status := Running, progress := Reports(log))
    ensures forall e :: e in Reports(log) ==> e.Valid()
  {
    var front := log[..|log| - 1];
    if front == [] {
      assert Replay(r, front) == r;
    } else {
      ActiveMeans(r, front);
    }
  }

  /** What a life says about the record: its status, its progress in order, and result and error
      that are mutually exclusive as the status dictates. */
  lemma LifecycleMeans(r: Run, log: seq<Update>)
    requires Lifecycle(log) && r == NewRun(r.id, r.name, r.params, r.rerunOf, r.owner)
    ensures var s := Replay(r, log);
      && s.progress == Reports(log) && (forall e :: e in s.progress ==> e.Valid())
      && (s.status == Pending <==> log == [])
      && (s.status == Running <==> Active(log))
      && (s.Terminal() <==> Finished(log))
      && (s.status == Success ==> s.error == None && log[|log| - 1] == Succeed(s.result))
      && (s.status == Failed ==> s.result == Null && s.error.Some? && log[|log| - 1] == Fail(s.error.value))
      && (!s.Terminal() ==> s.result == Null && s.error == None)
      && s == r.(status := s.status, progress := s.progress, result := s.result, error := s.error)
  {
    if Active(log) {
      ActiveMeans(r, log);
    } else if Finished(log) {
      ActiveMeans(r, log[..|log| - 1]);
    }
  }

  /** A finished life is over. */
  lemma FinishedIsLast(log: seq<Update>, log': seq<Update>)
    requires Finished(log) && Lifecycle(log') && log <= log'
    ensures log == log'
  {
    var k := |log| - 1;
    assert log'[k] == log[k] && log[k].Final();
  }

  lemma {:induction false} ReportsPrefix(log: seq<Update>, log': seq<Update>)
    requires log <= log'
    ensures Reports(log) <= Reports(log')
    decreases |log'|
  {
    if |log| == |log'| {
      assert log == log';
    } else {
      ReportsPrefix(log, log'[..|log'| - 1]);
    }
  }
}
