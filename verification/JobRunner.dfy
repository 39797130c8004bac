/** One worker running one job against a store with explicit commit and rollback.

    The worker changes its job and the table in place, step by step; a ghost trace
    shows that what it does to the table is a run of the job protocol. */
module JobRunner {
  import opened Prelude
  import opened Json
  import opened JobRecords
  import opened JobProtocol

  /** The job table as committed, and as the open transaction sees it. */
  class JobStore {
    var committed: map<JobId, Row>
    var working: map<JobId, Row>

    constructor (jobs: map<JobId, Row>)
      ensures committed == jobs && working == jobs
    {
      committed, working := jobs, jobs;
    }

    method Commit()
      modifies this
      ensures committed == old(working) && working == old(working)
    {
      committed := working;
    }

    method Rollback()
      modifies this`working
      ensures working == committed
    {
      working := committed;
    }

    /** The conditional update: it takes the row only while its status is runnable. */
    method ClaimForRun(jobId: JobId, worker: string) returns (claimed: Option<Row>)
      modifies this`working
      ensures
        if jobId in old(working) && Runnable(old(working)[jobId].status)
        then claimed == Some(ClaimedRow(old(working)[jobId], worker))
             && working == old(working)[jobId := ClaimedRow(old(working)[jobId], worker)]
        else claimed == None && working == old(working)
    {
      if jobId in working && (working[jobId].status.Pending? || working[jobId].status.Queued?) {
        var row := working[jobId];
        row := row.(status := Running, workerId := Some(worker), error := None);
        working := working[jobId := row];
        return Some(row);
      }
      claimed := None;
    }

    method Create(jobId: JobId, row: Row)
      requires jobId !in working
      modifies this`working
      ensures working == old(working)[jobId := row]
    {
      working := working[jobId := row];
    }

    /** Overwrites the whole row; a missing row is an error. */
    method Update(jobId: JobId, row: Row) returns (ok: bool)
      modifies this`working
      ensures ok == (jobId in old(working))
      ensures working == if ok then old(working)[jobId := row] else old(working)
    {
      if jobId !in working {
        return false;
      }
      working := working[jobId := row];
      ok := true;
    }

    /** A save and its commit, which the environment may lose. */
    method SaveAndCommit(jobId: JobId, row: Row, fault: Fault) returns (ok: bool)
      requires jobId in working
      modifies this
      ensures ok == fault.NoFault?
      ensures committed == if fault.LostBefore? then old(committed) else old(working)[jobId := row]
      ensures !fault.LostBefore? ==> working == committed
      ensures fault.LostBefore? ==> working == old(working)[jobId := row]
    {
      var found := Update(jobId, row);
      if fault.LostBefore? {
        return false;
      }
      Commit();
      ok := fault.NoFault?;
    }
  }

  /** What the environment does to each operation of one run. */
  datatype Environment = Environment(
    claim: Fault,
    lockEvent: bool,
    saveRunning: Fault,
    startedEvent: bool,
    stepEvent: bool,
    handler: Option<Dict>,
    saveSuccess: Fault,
    successEvents: bool,
    saveFailure: Fault)

  /** What a run of a runnable job returns; none when it raises. */
  function Outcome(env: Environment): Option<Dict> {
    if env.claim.NoFault? && env.lockEvent && env.saveRunning.NoFault? && env.startedEvent && env.stepEvent
       && env.saveSuccess.NoFault? && env.successEvents
    then env.handler
    else None
  }

  /** The committed row and the worker's copy of it when an attempt that began with the
      claimed row ends. */
  function AttemptedFrom(claimed: Row, worker: string, env: Environment): (Row, Row) {
    var running := RunningRow(claimed, worker);
    if !ReachesSuccess(env) then (if env.saveRunning.LostBefore? then claimed else running, running)
    else
      var succeeded := SucceededRow(running, env.handler.value);
      (if env.saveSuccess.LostBefore? then running else succeeded, succeeded)
  }

  /** The attempt gets as far as saving its success. */
  predicate ReachesSuccess(env: Environment) {
    env.saveRunning.NoFault? && env.startedEvent && env.stepEvent && env.handler.Some?
  }

  /** The claim and its event went through. */
  predicate Enters(env: Environment) {
    env.claim.NoFault? && env.lockEvent
  }

  /** The row a run leaves of a runnable job. */
  function LeftBehind(row: Row, worker: string, env: Environment, error: string): Row {
    if env.claim.LostBefore? then row
    else if !Enters(env) then ClaimedRow(row, worker)
    else
      var (committed, local) := AttemptedFrom(ClaimedRow(row, worker), worker, env);
      if Outcome(env).Some? || env.saveFailure.LostBefore? then committed else FailedRow(local, error)
  }

  /** Every final status, exactly: a run leaves its job succeeded if it returns, or if it
      raised on its way out and could not save the failure; running if it never got to
      record an error, or could not save the error of a job that had not succeeded; and
      failed otherwise. */
  lemma FinalStatusIff(row: Row, worker: string, env: Environment, error: string)
    requires Runnable(row.status)
    ensures
      var status := LeftBehind(row, worker, env, error).status;
      var succeeded := Enters(env) && ReachesSuccess(env) && !env.saveSuccess.LostBefore?;
      && (status.Succeeded? <==> Outcome(env).Some? || (succeeded && env.saveFailure.LostBefore?))
      && (status.Running? <==>
            !env.claim.LostBefore? && (!Enters(env) || (!succeeded && env.saveFailure.LostBefore?)))
      && (status.Failed? <==> Enters(env) && Outcome(env).None? && !env.saveFailure.LostBefore?)
      && (Runnable(status) <==> env.claim.LostBefore?)
  {
  }

  /** What a run leaves of the step it was to take, when nothing was running before. */
  function StepLeft(env: Environment): StepStatus {
    if !Enters(env) || (env.saveRunning.LostBefore? && env.saveFailure.LostBefore?) then StepPending
    else if !ReachesSuccess(env) then (if env.saveFailure.LostBefore? then StepRunning else StepFailed)
    else if env.saveSuccess.LostBefore? && env.saveFailure.LostBefore? then StepRunning
    else StepSucceeded
  }

  /** A run takes the first pending step of its job and no other: for every environment
      the status that step is left with, and the fields of the row beside it. */
  lemma RunTakesOneStep(row: Row, worker: string, env: Environment, error: string, i: int)
    requires Runnable(row.status) && RunningCount(row.steps) == 0 && IsFirst(row.steps, StepPending, i)
    ensures LeftBehind(row, worker, env, error).steps == row.steps[i := row.steps[i].(status := StepLeft(env))]
  {
    hide StartFirstPending, EndFirstRunning, EndAllRunning, RunningCount;
    var steps := row.steps;
    NoneRunning(steps);
    FirstPendingStarts(steps, i);
    var running := steps[i := steps[i].(status := StepRunning)];
    assert StartFirstPending(steps) == running && IsFirst(running, StepRunning, i);
    FirstRunningEnds(running, StepSucceeded, i);
    var succeeded := steps[i := steps[i].(status := StepSucceeded)];
    assert EndFirstRunning(running, StepSucceeded) == succeeded;
    EveryRunningEnds(running, StepFailed);
    EveryRunningEnds(succeeded, StepFailed);
    assert EndAllRunning(running, StepFailed) == steps[i := steps[i].(status := StepFailed)];
    assert EndAllRunning(succeeded, StepFailed) == succeeded;
  }

  /** With no pending step left a run leaves all steps alone. */
  lemma RunWithoutPendingStep(row: Row, worker: string, env: Environment, error: string)
    requires Runnable(row.status) && RunningCount(row.steps) == 0 && HasNone(row.steps, StepPending)
    ensures LeftBehind(row, worker, env, error).steps == row.steps
  {
    hide StartFirstPending, EndFirstRunning, EndAllRunning, RunningCount;
    NoneRunning(row.steps);
    NothingToStart(row.steps);
    NothingToEnd(row.steps, StepSucceeded);
    EveryRunningEnds(row.steps, StepFailed);
    assert EndAllRunning(row.steps, StepFailed) == row.steps;
  }

  /** The other fields of the row: a run that returns leaves its result and no error, a
      failed one its error beside what there was of a result, one whose claim was lost
      nothing; the worker is named as soon as the claim is committed. */
  lemma FinalFields(row: Row, worker: string, env: Environment, error: string)
    requires Runnable(row.status)
    ensures
      var left := LeftBehind(row, worker, env, error);
      && (env.claim.LostBefore? ==> left == row)
      && (!env.claim.LostBefore? ==> left.workerId == Some(worker))
      && (Outcome(env).Some? ==> left.result == env.handler && left.error == None)
      && (left.status.Succeeded? ==> left.result == env.handler && left.error == None)
      && (left.status.Running? ==> left.result == row.result && left.error == None)
      && (left.status.Failed? ==>
            left.error == Some(error) && left.result == if ReachesSuccess(env) then env.handler else row.result)
  {
  }

  datatype RunError = JobNotFound | AlreadySucceeded | AlreadyRunning | JobCancelled | NotRunnable | Raised

  /** What an error says of the table that the run found; anything lost on the way shows as
      an error of its own. */
  predicate Explains(e: RunError, jobId: JobId, jobs: map<JobId, Row>, env: Environment) {
    if env.claim.LostBefore? then e == Raised
    else if jobId !in jobs then e == JobNotFound
    else
      match jobs[jobId].status
      case Succeeded => e == AlreadySucceeded
      case Running => e == AlreadyRunning
      case Cancelled => e == JobCancelled
      case Failed => e == NotRunnable
      case Skipped => e == NotRunnable
      case _ => e == Raised
  }

  class JobRunner {
    const store: JobStore
    const me: nat
    const name: string
    const recorder: JobResultRecorder

    /** The protocol's view: where it started, what was done since, where it stands. */
    ghost const start: System
    ghost var trace: seq<Action>
    ghost var system: System

    constructor (store: JobStore, me: nat, name: string, ghost start: System)
      requires start.jobs == store.committed == store.working && me !in start.workers
      ensures Valid() && Idle() && system == start && trace == []
      ensures this.store == store && this.me == me && this.name == name && this.start == start
    {
      this.store, this.me, this.name, this.start := store, me, name, start;
      recorder := new JobResultRecorder();
      trace, system := [], start;
    }

    ghost predicate Valid()
      reads this, store
    {
      RunFrom(start, trace) == Some(system) && system.jobs == store.committed
    }

    ghost predicate Idle()
      reads this
    {
      me !in system.workers
    }

    /** The worker stands in `phase` and holds `job`. */
    ghost predicate Holds(job: JobManifest, jobId: JobId, phase: Phase)
      reads this, store, job
    {
      && Valid()
      && me in system.workers
      && system.workers[me].jobId == jobId && system.workers[me].name == name
      && system.workers[me].phase == phase && system.workers[me].local == job.AsRow()
      && jobId in store.working && jobId in store.committed
    }

    /** Records that the protocol's action `a` has just been performed. */
    ghost method Did(a: Action)
      requires RunFrom(start, trace) == Some(system)
      requires Apply(system, a).Some? && Apply(system, a).value.jobs == store.committed
      modifies this`trace, this`system
      ensures Valid() && system == Apply(old(system), a).value && trace == old(trace) + [a]
    {
      RunOne(start, trace, a);
      trace, system := trace + [a], Apply(system, a).value;
    }

    method Run(jobId: JobId, env: Environment, error: string) returns (r: Result<Row, RunError>)
      requires Valid() && Idle() && store.working == store.committed
      modifies this, store
      ensures Valid() && Idle()
      ensures old(trace) <= trace
      ensures r.Ok? <==>
        jobId in old(store.committed) && Runnable(old(store.committed)[jobId].status) && Outcome(env).Some?
      ensures r.Ok? ==>
        && jobId in store.committed && store.committed[jobId] == r.value && r.value.result == Outcome(env)
        && store.working == store.committed
      ensures store.committed ==
        if jobId in old(store.committed) && Runnable(old(store.committed)[jobId].status)
        then old(store.committed)[jobId := LeftBehind(old(store.committed)[jobId], name, env, error)]
        else old(store.committed)
      ensures jobId !in old(store.committed) || !Runnable(old(store.committed)[jobId].status) ==>
        r.Err? && store.committed == old(store.committed) && trace == old(trace)
      ensures r.Err? ==> Explains(r.error, jobId, old(store.committed), env)
    {
      hide RunFrom, Apply, JobRunner.Holds, JobRunner.Valid, JobRunner.Idle, AttemptedFrom, ClaimedRow;
      var job, refused := PrepareExecution(jobId, env);
      if job == null {
        return Err(refused);
      }
      r := Execute(job, jobId, env, error);
    }

    /** The part that records failures. */
    method Execute(job: JobManifest, jobId: JobId, env: Environment, error: string) returns (r: Result<Row, RunError>)
      requires Holds(job, jobId, Locked) && Enters(env) && store.working == store.committed
      requires jobId in store.committed && store.committed[jobId] == job.AsRow()
      modifies this, store, job
      ensures Valid() && Idle() && old(trace) <= trace
      ensures (r.Ok? <==> Outcome(env).Some?) && (r.Err? ==> r.error == Raised)
      ensures r.Ok? ==>
        && jobId in store.committed && store.committed[jobId] == r.value && r.value.result == Outcome(env)
        && store.working == store.committed
      ensures
        var ended := AttemptedFrom(old(job.AsRow()), name, env);
        store.committed == old(store.committed)[
          jobId := if r.Ok? || env.saveFailure.LostBefore? then ended.0 else FailedRow(ended.1, error)]
    {
      hide RunFrom, Apply, JobRunner.Holds, JobRunner.Valid, JobRunner.Idle, AttemptedFrom, FailedRow;
      var ok := Attempt(job, jobId, env);
      if ok {
        return Ok(job.AsRow());
      }
      RollBackTo(job, jobId);
      FailExecution(job, jobId, env, error);
      r := Err(Raised);
    }

    /** The lifecycle steps, up to the first that raises. */
    method Attempt(job: JobManifest, jobId: JobId, env: Environment) returns (ok: bool)
      requires Holds(job, jobId, Locked) && Enters(env) && store.working == store.committed
      requires jobId in store.committed && store.committed[jobId] == job.AsRow()
      modifies this, store, job
      ensures ok <==> Outcome(env).Some?
      ensures if ok then Valid() && Idle() else Holds(job, jobId, Failing)
      ensures ok ==> job.AsRow().result == Outcome(env)
      ensures ok ==>
        jobId in store.committed && store.committed[jobId] == job.AsRow() && store.working == store.committed
      ensures old(trace) <= trace && job.AsRow() == AttemptedFrom(old(job.AsRow()), name, env).1
      ensures store.committed == old(store.committed)[jobId := AttemptedFrom(old(job.AsRow()), name, env).0]
    {
      hide RunFrom, Apply, JobRunner.Holds, JobRunner.Valid, JobRunner.Idle, RunningRow, SucceededRow;
      ok := StartJob(job, jobId, env);
      if ok {
        ok := StartStep(job, jobId, env);
      }
      if ok {
        ok := ExecuteHandler(job, jobId, env);
      }
      if ok {
        ok := CompleteJob(job, jobId, env);
      }
    }

    /** Claim and lock event; both lie outside the part that records failures. */
    method PrepareExecution(jobId: JobId, env: Environment) returns (job: JobManifest?, refused: RunError)
      requires Valid() && Idle() && store.working == store.committed
      modifies this, store
      ensures job != null ==> fresh(job) && Holds(job, jobId, Locked) && store.working == store.committed
      ensures job == null ==> Valid() && Idle()
      ensures old(trace) <= trace
      ensures job != null <==>
        jobId in old(store.committed) && Runnable(old(store.committed)[jobId].status) && Enters(env)
      ensures job != null ==> job.AsRow() == ClaimedRow(old(store.committed)[jobId], name)
      ensures store.committed ==
        if jobId in old(store.committed) && Runnable(old(store.committed)[jobId].status) && !env.claim.LostBefore?
        then old(store.committed)[jobId := ClaimedRow(old(store.committed)[jobId], name)]
        else old(store.committed)
      ensures jobId !in old(store.committed) || !Runnable(old(store.committed)[jobId].status) ==>
        store.committed == old(store.committed) && trace == old(trace)
      ensures job == null ==> Explains(refused, jobId, old(store.committed), env)
    {
      hide RunFrom, StartFirstPending, EndFirstRunning, EndAllRunning;
      job := null;
      if env.claim.LostBefore? {
        return null, Raised;
      }
      var claimed := store.ClaimForRun(jobId, name);
      if claimed.None? {
        refused := Refusal(jobId);
        return null, refused;
      }
      store.Commit();
      Did(Claim(me, jobId, name, env.claim));
      if env.claim.LostAfter? {
        return null, Raised;
      }
      Did(AppendLockEvent(me, env.lockEvent));
      if !env.lockEvent {
        return null, Raised;
      }
      job := new JobManifest(claimed.value);
      refused := Raised;
    }

    /** Why a claim was refused. */
    method Refusal(jobId: JobId) returns (e: RunError)
      requires jobId !in store.working || !Runnable(store.working[jobId].status)
      ensures jobId !in store.working <==> e.JobNotFound?
      ensures e.AlreadySucceeded? <==> jobId in store.working && store.working[jobId].status.Succeeded?
      ensures e.AlreadyRunning? <==> jobId in store.working && store.working[jobId].status.Running?
      ensures e.JobCancelled? <==> jobId in store.working && store.working[jobId].status.Cancelled?
      ensures !e.Raised?
    {
      if jobId !in store.working {
        return JobNotFound;
      }
      match store.working[jobId].status
      case Succeeded => return AlreadySucceeded;
      case Running => return AlreadyRunning;
      case Cancelled => return JobCancelled;
      case _ => return NotRunnable;
    }

    method StartJob(job: JobManifest, jobId: JobId, env: Environment) returns (ok: bool)
      requires Holds(job, jobId, Locked)
      requires store.working == store.committed
      modifies this, store, job
      ensures Holds(job, jobId, if ok then Stepping else Failing)
      ensures ok <==> env.saveRunning.NoFault? && env.startedEvent
      ensures ok ==> store.working == store.committed
      ensures job.AsRow() == RunningRow(old(job.AsRow()), name) && old(trace) <= trace
      ensures store.committed ==
        if env.saveRunning.LostBefore? then old(store.committed) else old(store.committed)[jobId := job.AsRow()]
    {
      hide RunFrom, RunningRow, SucceededRow, FailedRow, ClaimedRow, QueuedRow;
      recorder.MarkJobRunning(job, name);
      ok := store.SaveAndCommit(jobId, job.AsRow(), env.saveRunning);
      Did(SaveRunning(me, env.saveRunning));
      if !ok {
        return;
      }
      Did(AppendStartedEvent(me, env.startedEvent));
      ok := env.startedEvent;
    }

    method StartStep(job: JobManifest, jobId: JobId, env: Environment) returns (ok: bool)
      requires Holds(job, jobId, Stepping)
      modifies this
      ensures Holds(job, jobId, if ok then Handling else Failing)
      ensures ok == env.stepEvent && old(trace) <= trace
    {
      hide RunFrom, StartFirstPending, EndFirstRunning, EndAllRunning;
      Did(AppendStepEvent(me, env.stepEvent));
      ok := env.stepEvent;
    }

    method ExecuteHandler(job: JobManifest, jobId: JobId, env: Environment) returns (ok: bool)
      requires Holds(job, jobId, Handling)
      modifies this
      ensures ok == env.handler.Some? && old(trace) <= trace
      ensures ok ==> Holds(job, jobId, Completing) && system.workers[me].result == env.handler.value
      ensures !ok ==> Holds(job, jobId, Failing)
    {
      hide RunFrom, StartFirstPending, EndFirstRunning, EndAllRunning;
      Did(RunHandler(me, env.handler));
      ok := env.handler.Some?;
    }

    method SaveResult(job: JobManifest, jobId: JobId, env: Environment) returns (ok: bool)
      requires env.handler.Some? && Holds(job, jobId, Completing) && system.workers[me].result == env.handler.value
      requires store.working == store.committed
      modifies this, store, job
      ensures ok == env.saveSuccess.NoFault? && (ok ==> store.working == store.committed)
      ensures Holds(job, jobId, if ok then Completed else Failing)
      ensures job.AsRow() == SucceededRow(old(job.AsRow()), env.handler.value) && old(trace) <= trace
      ensures store.committed ==
        if env.saveSuccess.LostBefore? then old(store.committed) else old(store.committed)[jobId := job.AsRow()]
    {
      hide RunFrom, StartFirstPending, EndFirstRunning, EndAllRunning;
      recorder.MarkJobSucceeded(job, env.handler.value);
      ok := store.SaveAndCommit(jobId, job.AsRow(), env.saveSuccess);
      Did(SaveSuccess(me, env.saveSuccess));
    }

    method CompleteJob(job: JobManifest, jobId: JobId, env: Environment) returns (ok: bool)
      requires env.handler.Some? && Holds(job, jobId, Completing) && system.workers[me].result == env.handler.value
      requires store.working == store.committed
      modifies this, store, job
      ensures ok <==> env.saveSuccess.NoFault? && env.successEvents
      ensures ok ==> Valid() && Idle() && job.AsRow().result == env.handler && store.working == store.committed
      ensures !ok ==> Holds(job, jobId, Failing)
      ensures job.AsRow() == SucceededRow(old(job.AsRow()), env.handler.value) && old(trace) <= trace
      ensures store.committed ==
        if env.saveSuccess.LostBefore? then old(store.committed) else old(store.committed)[jobId := job.AsRow()]
    {
      hide RunFrom, StartFirstPending, EndFirstRunning, EndAllRunning;
      ok := SaveResult(job, jobId, env);
      if !ok {
        return;
      }
      Did(AppendSuccessEvents(me, env.successEvents));
      ok := env.successEvents;
    }

    /** Discards what the failed attempt had not committed. */
    method RollBackTo(job: JobManifest, jobId: JobId)
      requires Holds(job, jobId, Failing)
      modifies store`working
      ensures Holds(job, jobId, Failing) && store.working == store.committed
    {
      store.Rollback();
    }

    method SaveError(job: JobManifest, jobId: JobId, env: Environment, error: string) returns (ok: bool)
      requires Holds(job, jobId, Failing)
      requires store.working == store.committed
      modifies this, store, job
      ensures ok == env.saveFailure.NoFault?
      ensures if ok then Holds(job, jobId, Closing) else Valid() && Idle()
      ensures old(trace) <= trace
      ensures store.committed ==
        if env.saveFailure.LostBefore? then old(store.committed)
        else old(store.committed)[jobId := FailedRow(old(job.AsRow()), error)]
    {
      hide RunFrom, StartFirstPending, EndFirstRunning, EndAllRunning;
      recorder.MarkJobFailed(job, error);
      ok := store.SaveAndCommit(jobId, job.AsRow(), env.saveFailure);
      Did(SaveFailure(me, error, env.saveFailure));
    }

    method FailExecution(job: JobManifest, jobId: JobId, env: Environment, error: string)
      requires Holds(job, jobId, Failing)
      requires store.working == store.committed
      modifies this, store, job
      ensures Valid() && Idle()
      ensures old(trace) <= trace
      ensures store.committed ==
        if env.saveFailure.LostBefore? then old(store.committed)
        else old(store.committed)[jobId := FailedRow(old(job.AsRow()), error)]
    {
      hide RunFrom;
      var ok := SaveError(job, jobId, env, error);
      if ok {
        Did(AppendFailureEvents(me));
      }
    }
  }
}
