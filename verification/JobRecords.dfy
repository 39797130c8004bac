/** Job rows, and the in-place status transitions of a job and its steps. */
module JobRecords {
  import opened Prelude
  import opened Json

  datatype JobStatus = Pending | Queued | Running | Succeeded | Failed | Cancelled | Skipped

  datatype StepStatus = StepPending | StepRunning | StepSucceeded | StepFailed | StepSkipped

  datatype Step = Step(id: string, name: string, status: StepStatus)

  /** One row of the job table, without its timestamps. */
  datatype Row = Row(
    status: JobStatus,
    steps: seq<Step>,
    workerId: Option<string>,
    result: Option<Dict>,
    error: Option<string>)

  predicate Runnable(status: JobStatus) {
    status.Pending? || status.Queued?
  }

  /** The statuses the API refuses to queue again. */
  predicate Unqueueable(status: JobStatus) {
    status.Running? || status.Succeeded? || status.Cancelled?
  }

  // ---- step transitions ----

  function StartFirstPending(steps: seq<Step>): seq<Step> {
    if steps == [] then []
    else if steps[0].status.StepPending? then [steps[0].(status := StepRunning)] + steps[1..]
    else [steps[0]] + StartFirstPending(steps[1..])
  }

  /** Ends the first running step only. */
  function EndFirstRunning(steps: seq<Step>, status: StepStatus): seq<Step> {
    if steps == [] then []
    else if steps[0].status.StepRunning? then [steps[0].(status := status)] + steps[1..]
    else [steps[0]] + EndFirstRunning(steps[1..], status)
  }

  /** Ends every running step. */
  function EndAllRunning(steps: seq<Step>, status: StepStatus): seq<Step> {
    seq(|steps|, i requires 0 <= i < |steps| =>
      if steps[i].status.StepRunning? then steps[i].(status := status) else steps[i])
  }

  function RunningCount(steps: seq<Step>): nat {
    if steps == [] then 0 else (if steps[0].status.StepRunning? then 1 else 0) + RunningCount(steps[1..])
  }

  function FirstRunning(steps: seq<Step>): Option<Step> {
    if steps == [] then None
    else if steps[0].status.StepRunning? then Some(steps[0])
    else FirstRunning(steps[1..])
  }

  // ---- row transitions ----

  function ClaimedRow(row: Row, worker: string): Row {
    row.(status := Running, workerId := Some(worker), error := None)
  }

  function QueuedRow(row: Row): Row {
    row.(status := Queued)
  }

  function RunningRow(row: Row, worker: string): Row {
    row.(status := Running, workerId := Some(worker), error := None, steps := StartFirstPending(row.steps))
  }

  function SucceededRow(row: Row, result: Dict): Row {
    row.(status := Succeeded, result := Some(result), error := None, steps := EndFirstRunning(row.steps, StepSucceeded))
  }

  function FailedRow(row: Row, error: string): Row {
    row.(status := Failed, error := Some(error), steps := EndAllRunning(row.steps, StepFailed))
  }

  /** The job object a worker holds while it runs the job. */
  class JobManifest {
    var status: JobStatus
    var steps: seq<Step>
    var workerId: Option<string>
    var result: Option<Dict>
    var error: Option<string>

    constructor (row: Row)
      ensures AsRow() == row
    {
      status, steps, workerId := row.status, row.steps, row.workerId;
      result, error := row.result, row.error;
    }

    function AsRow(): Row
      reads this
    {
      Row(status, steps, workerId, result, error)
    }
  }

  /** The recorder's transitions, on the job object in place. */
  class JobResultRecorder {

    constructor () {}

    method MarkJobRunning(job: JobManifest, worker: string)
      modifies job
      ensures job.AsRow() == RunningRow(old(job.AsRow()), worker)
    {
      job.status := Running;
      job.workerId := Some(worker);
      job.error := None;
      MarkFirstPendingStepRunning(job);
    }

    method MarkFirstPendingStepRunning(job: JobManifest)
      modifies job`steps
      ensures job.steps == StartFirstPending(old(job.steps))
    {
      var i := 0;
      while i < |job.steps|
        invariant 0 <= i <= |job.steps|
        invariant job.steps == old(job.steps)
        invariant StartFirstPending(job.steps) == job.steps[..i] + StartFirstPending(job.steps[i..])
      {
        if job.steps[i].status.StepPending? {
          job.steps := job.steps[i := job.steps[i].(status := StepRunning)];
          return;
        }
        assert job.steps[i..][1..] == job.steps[i + 1..];
        i := i + 1;
      }
    }

    method MarkJobSucceeded(job: JobManifest, result: Dict)
      modifies job
      ensures job.AsRow() == SucceededRow(old(job.AsRow()), result)
    {
      EndFirstRunningStep(job);
      job.status := Succeeded;
      job.result := Some(result);
      job.error := None;
    }

    /** Stops at the first running step. */
    method EndFirstRunningStep(job: JobManifest)
      modifies job`steps
      ensures job.steps == EndFirstRunning(old(job.steps), StepSucceeded)
    {
      var i := 0;
      while i < |job.steps|
        invariant 0 <= i <= |job.steps|
        invariant job.steps == old(job.steps)
        invariant EndFirstRunning(job.steps, StepSucceeded) ==
          job.steps[..i] + EndFirstRunning(job.steps[i..], StepSucceeded)
      {
        if job.steps[i].status.StepRunning? {
          job.steps := job.steps[i := job.steps[i].(status := StepSucceeded)];
          break;
        }
        assert job.steps[i..][1..] == job.steps[i + 1..];
        i := i + 1;
      }
    }

    /** Looks at every step. */
    method MarkJobFailed(job: JobManifest, error: string)
      modifies job
      ensures job.AsRow() == FailedRow(old(job.AsRow()), error)
    {
      EndAllRunningSteps(job);
      job.status := Failed;
      job.error := Some(error);
    }

    method EndAllRunningSteps(job: JobManifest)
      modifies job`steps
      ensures job.steps == EndAllRunning(old(job.steps), StepFailed)
    {
      ghost var ended := EndAllRunning(job.steps, StepFailed);
      for i := 0 to |job.steps|
        invariant |job.steps| == |ended|
        invariant forall k | 0 <= k < i :: job.steps[k] == ended[k]
        invariant forall k | i <= k < |job.steps| :: job.steps[k] == old(job.steps)[k]
      {
        if job.steps[i].status.StepRunning? {
          job.steps := job.steps[i := job.steps[i].(status := StepFailed)];
        }
      }
    }

    method GetRunningStep(job: JobManifest) returns (step: Option<Step>)
      ensures step == FirstRunning(job.steps)
    {
      for i := 0 to |job.steps|
        invariant FirstRunning(job.steps) == FirstRunning(job.steps[i..])
      {
        if job.steps[i].status.StepRunning? {
          return Some(job.steps[i]);
        }
        assert job.steps[i..][1..] == job.steps[i + 1..];
      }
      step := None;
    }
  }

  // ---- which step a transition changes ----

  /** The step at `i` is the first that has the given status. */
  predicate IsFirst(steps: seq<Step>, status: StepStatus, i: int) {
    0 <= i < |steps| && steps[i].status == status && forall k | 0 <= k < i :: steps[k].status != status
  }

  predicate HasNone(steps: seq<Step>, status: StepStatus) {
    forall k | 0 <= k < |steps| :: steps[k].status != status
  }

  /** Starting changes the first pending step, which then runs, and nothing else. */
  lemma {:induction false} FirstPendingStarts(steps: seq<Step>, i: int)
    requires IsFirst(steps, StepPending, i)
    ensures StartFirstPending(steps) == steps[i := steps[i].(status := StepRunning)]
  {
    if i > 0 {
      FirstOfRest(steps, StepPending, i);
      FirstPendingStarts(steps[1..], i - 1);
    }
  }

  lemma {:induction false} NothingToStart(steps: seq<Step>)
    requires HasNone(steps, StepPending)
    ensures StartFirstPending(steps) == steps
  {
    if steps != [] {
      NothingToStart(steps[1..]);
    }
  }

  /** Ending the first running step changes that one and nothing else. */
  lemma {:induction false} FirstRunningEnds(steps: seq<Step>, status: StepStatus, i: int)
    requires IsFirst(steps, StepRunning, i)
    ensures EndFirstRunning(steps, status) == steps[i := steps[i].(status := status)]
    ensures FirstRunning(steps) == Some(steps[i])
  {
    if i > 0 {
      FirstOfRest(steps, StepRunning, i);
      FirstRunningEnds(steps[1..], status, i - 1);
    }
  }

  lemma {:induction false} NothingToEnd(steps: seq<Step>, status: StepStatus)
    requires HasNone(steps, StepRunning)
    ensures EndFirstRunning(steps, status) == steps
    ensures FirstRunning(steps) == None
  {
    if steps != [] {
      NothingToEnd(steps[1..], status);
    }
  }

  lemma FirstOfRest(steps: seq<Step>, status: StepStatus, i: int)
    requires IsFirst(steps, status, i) && i > 0
    ensures IsFirst(steps[1..], status, i - 1) && steps[0].status != status
  {
    assert forall k | 0 <= k < i - 1 :: steps[1..][k] == steps[k + 1];
  }

  /** Ending all running steps gives each of them the status, and nothing else changes. */
  lemma EveryRunningEnds(steps: seq<Step>, status: StepStatus)
    ensures |EndAllRunning(steps, status)| == |steps|
    ensures forall i | 0 <= i < |steps| ::
      && EndAllRunning(steps, status)[i].id == steps[i].id && EndAllRunning(steps, status)[i].name == steps[i].name
      && EndAllRunning(steps, status)[i].status == if steps[i].status == StepRunning then status else steps[i].status
  {
  }

  // ---- what the transitions keep ----

  /** At most one running step, and none unless the job is running. */
  predicate Orderly(row: Row) {
    RunningCount(row.steps) <= 1 && (!row.status.Running? ==> RunningCount(row.steps) == 0)
  }

  lemma {:induction false} NoneRunning(steps: seq<Step>)
    ensures RunningCount(steps) == 0 <==> forall i | 0 <= i < |steps| :: !steps[i].status.StepRunning?
    ensures RunningCount(steps) == 0 <==> FirstRunning(steps).None?
  {
    if steps != [] {
      NoneRunning(steps[1..]);
      assert forall i | 0 <= i < |steps| - 1 :: steps[1..][i] == steps[i + 1];
      assert forall i | 0 < i < |steps| :: steps[i] == steps[1..][i - 1];
    }
  }

  /** With at most one running step, stopping at the first is the same as looking
      at them all, and leaves none running. */
  lemma {:induction false} FirstIsAll(steps: seq<Step>, status: StepStatus)
    requires RunningCount(steps) <= 1 && !status.StepRunning?
    ensures EndFirstRunning(steps, status) == EndAllRunning(steps, status)
    ensures RunningCount(EndFirstRunning(steps, status)) == 0
  {
    if steps != [] {
      var rest := steps[1..];
      if steps[0].status.StepRunning? {
        NoneRunning(rest);
        assert [steps[0].(status := status)] + rest == EndAllRunning(steps, status);
        assert ([steps[0].(status := status)] + rest)[1..] == rest;
      } else {
        FirstIsAll(rest, status);
        assert [steps[0]] + EndAllRunning(rest, status) == EndAllRunning(steps, status);
        assert ([steps[0]] + EndFirstRunning(rest, status))[1..] == EndFirstRunning(rest, status);
      }
    }
  }

  lemma {:induction false} EndAllLeavesNone(steps: seq<Step>, status: StepStatus)
    requires !status.StepRunning?
    ensures RunningCount(EndAllRunning(steps, status)) == 0
  {
    NoneRunning(EndAllRunning(steps, status));
  }

  lemma {:induction false} StartAddsAtMostOne(steps: seq<Step>)
    ensures RunningCount(steps) <= RunningCount(StartFirstPending(steps)) <= RunningCount(steps) + 1
  {
    if steps != [] {
      StartAddsAtMostOne(steps[1..]);
      if steps[0].status.StepPending? {
        assert ([steps[0].(status := StepRunning)] + steps[1..])[1..] == steps[1..];
      } else {
        assert ([steps[0]] + StartFirstPending(steps[1..]))[1..] == StartFirstPending(steps[1..]);
      }
    }
  }

  /** Only a success writes the result, and only a failure an error; starting and succeeding
      clear it, queuing leaves everything but the status. */
  lemma TransitionsKeepTheRest(row: Row, worker: string, result: Dict, error: string)
    ensures QueuedRow(row) == Row(Queued, row.steps, row.workerId, row.result, row.error)
    ensures
      var claimed, running := ClaimedRow(row, worker), RunningRow(row, worker);
      && claimed.status == running.status == Running && claimed.steps == row.steps
      && claimed.workerId == running.workerId == Some(worker)
      && claimed.result == running.result == row.result && claimed.error == running.error == None
    ensures
      var ended := SucceededRow(row, result);
      ended.status == Succeeded && ended.result == Some(result) && ended.error == None && ended.workerId == row.workerId
    ensures
      var ended := FailedRow(row, error);
      && ended.status == Failed && ended.error == Some(error) && ended.result == row.result
      && ended.workerId == row.workerId
  {
  }

  /** Every transition keeps a row orderly. */
  lemma TransitionsStayOrderly(row: Row, worker: string, result: Dict, error: string)
    requires RunningCount(row.steps) <= 1
    ensures RunningCount(row.steps) == 0 ==> Orderly(RunningRow(row, worker)) && Orderly(ClaimedRow(row, worker))
    ensures RunningCount(row.steps) == 0 ==> Orderly(QueuedRow(row))
    ensures Orderly(SucceededRow(row, result)) && Orderly(FailedRow(row, error))
  {
    StartAddsAtMostOne(row.steps);
    FirstIsAll(row.steps, StepSucceeded);
    EndAllLeavesNone(row.steps, StepFailed);
  }
}
