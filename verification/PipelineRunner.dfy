/** The pipeline and task runners, in place over a store with explicit commit and
    rollback. Each is proved to commit exactly the snapshots of its specification. */
module PipelineRunner {
  import opened Prelude
  import opened Json
  import opened Ordering
  import opened PipelineRecords
  import opened TaskResults
  import opened RunResults
  import opened PipelineRun
  import opened PipelineSafety
  import JobRecords
  import JobProtocol
  import JobRunner

  /** The rows of one run as committed and as the open transaction sees them. */
  class PipelineStore {
    var committed: Snapshot
    var working: Snapshot
    ghost var log: seq<Snapshot>

    constructor (s: Snapshot)
      ensures committed == working == s && log == []
    {
      committed, working, log := s, s, [];
    }

    method Commit()
      modifies this
      ensures committed == working == old(working) && log == old(log) + [old(working)]
    {
      committed := working;
      log := log + [working];
    }

    method Rollback()
      modifies this`working
      ensures working == committed
    {
      working := committed;
    }

    method FindTask(id: string) returns (row: Option<TaskRow>)
      ensures row == if id in working.tasks then Some(working.tasks[id]) else None
    {
      row := if id in working.tasks then Some(working.tasks[id]) else None;
    }

    method CreateTask(row: TaskRow)
      modifies this`working
      ensures working == old(working).(tasks := old(working).tasks[row.id := row])
    {
      working := working.(tasks := working.tasks[row.id := row]);
    }

    /** Saving a row that is not there is an error. */
    method SaveTask(id: string, row: TaskRow) returns (ok: bool)
      modifies this`working
      ensures ok == (id in old(working).tasks)
      ensures working == if ok then old(working).(tasks := old(working).tasks[id := row]) else old(working)
    {
      if id !in working.tasks {
        return false;
      }
      working := working.(tasks := working.tasks[id := row]);
      ok := true;
    }

    method SaveRun(run: RunRow)
      modifies this`working
      ensures working == old(working).(run := run)
    {
      working := working.(run := run);
    }

    /** A job with a new id. */
    method CreateJob(taskId: string) returns (job: JobRef)
      modifies this`working
      ensures job == |old(working).jobs| && working == old(working).(jobs := old(working).jobs + [taskId])
    {
      job := |working.jobs|;
      working := working.(jobs := working.jobs + [taskId]);
    }

    method ListTasks(ordered: seq<TaskDef>) returns (rows: seq<TaskRow>)
      ensures rows == Listed(ordered, working.tasks)
    {
      rows := [];
      for i := 0 to |ordered|
        invariant rows + RowsOf(ordered[i..], working.tasks) == RowsOf(ordered, working.tasks)
      {
        assert ordered[i..][1..] == ordered[i + 1..];
        if ordered[i].id in working.tasks {
          rows := rows + [working.tasks[ordered[i].id]];
        }
      }
      if |rows| > 100 {
        rows := rows[..100];
      }
    }
  }

  /** One task's execution in progress. */
  class PipelineTaskExecution {
    const def: TaskDef
    const params: Dict
    var taskRun: TaskRow
    var inputs: Option<Upstream>

    constructor (def: TaskDef, params: Dict, taskRun: TaskRow)
      ensures this.def == def && this.params == params && this.taskRun == taskRun && inputs == None
    {
      this.def, this.params, this.taskRun := def, params, taskRun;
      inputs := None;
    }
  }

  class PipelineTaskRunner {
    const store: PipelineStore
    const jobRunner: JobRunner.JobRunner

    constructor (store: PipelineStore, jobRunner: JobRunner.JobRunner)
      ensures this.store == store && this.jobRunner == jobRunner
    {
      this.store, this.jobRunner := store, jobRunner;
    }

    /** Nobody works on a job, and the jobs in the table are among those created. */
    ghost predicate JobsOk()
      reads store, jobRunner, jobRunner.store
    {
      && jobRunner.Valid() && jobRunner.Idle()
      && forall k | k in jobRunner.store.committed :: k < |store.committed.jobs|
    }

    ghost predicate JobsReady()
      reads store, jobRunner, jobRunner.store
    {
      JobsOk() && jobRunner.store.working == jobRunner.store.committed
    }

    /** The open transaction differs from `s` at most in the execution's own row. */
    ghost predicate Loaded(s: Snapshot, execution: PipelineTaskExecution)
      reads store, execution
    {
      && execution.params == s.run.params
      && store.working == s.(tasks := s.tasks[execution.def.id := execution.taskRun])
    }

    // ---- preparation ----

    method PrepareExecution(def: TaskDef) returns (execution: PipelineTaskExecution)
      requires store.working == store.committed
      modifies store`working
      ensures fresh(execution) && execution.def == def
      ensures execution.taskRun == RowOf(store.committed, def) && Loaded(store.committed, execution)
    {
      var existing := store.FindTask(def.id);
      if existing.Some? {
        execution := new PipelineTaskExecution(def, store.working.run.params, existing.value);
      } else {
        var row :=
          TaskRow(def.id, def.order, TaskStatus.Pending, def.dependsOn, def.defaultParams, None, None, None);
        store.CreateTask(row);
        execution := new PipelineTaskExecution(def, store.working.run.params, row);
      }
    }

    method MustSkip(execution: PipelineTaskExecution) returns (skip: bool)
      ensures skip == ShouldSkip(execution.def, execution.params)
    {
      if !execution.def.optional {
        return false;
      }
      var keys := execution.def.paramKeys + [execution.def.id, execution.def.name, execution.def.jobType];
      for i := 0 to |keys|
        invariant forall k | 0 <= k < i :: !GivesParams(execution.params, keys[k])
      {
        if keys[i] in execution.params && execution.params[keys[i]].Obj? && execution.params[keys[i]].fields != map[] {
          assert GivesParams(execution.params, keys[i]) && keys[i] in keys;
          return false;
        }
      }
      skip := true;
    }

    // ---- steps ----

    /** The first `n` writes of `t` are committed and nothing else is. */
    ghost predicate Committed(s: Snapshot, id: string, t: TaskTrace, n: nat, log: seq<Snapshot>)
      reads store
    {
      && n <= |t.writes| && store.committed == After(s, id, t, n)
      && store.log == log + Commits(s, id, t)[..n]
    }

    /** Saves the execution's row, which is the next write of `t`, and commits. */
    method Save(execution: PipelineTaskExecution, ghost s: Snapshot, ghost t: TaskTrace, ghost n: nat,
                ghost log: seq<Snapshot>)
      returns (ok: bool)
      requires Committed(s, execution.def.id, t, n, log)
      requires execution.def.id in store.working.tasks ==>
        && n < |t.writes| && execution.taskRun == t.writes[n]
        && store.working.(tasks := store.working.tasks[execution.def.id := t.writes[n]])
           == After(s, execution.def.id, t, n + 1)
      modifies store
      ensures ok == (execution.def.id in old(store.working).tasks)
      ensures ok ==> Committed(s, execution.def.id, t, n + 1, log) && store.working == store.committed
      ensures !ok ==> Committed(s, execution.def.id, t, n, log) && store.working == old(store.working)
    {
      ok := store.SaveTask(execution.def.id, execution.taskRun);
      if ok {
        store.Commit();
        assert Commits(s, execution.def.id, t)[..n + 1] ==
          Commits(s, execution.def.id, t)[..n] + [After(s, execution.def.id, t, n + 1)];
      }
    }

    /** Tasks that are settled already, or are to be skipped, are not run. */
    method HandlePreExecutionState(execution: PipelineTaskExecution, ghost s: Snapshot, ghost script: TaskScript)
      returns (outcome: Option<TaskOutcome>)
      requires s == store.committed && Loaded(s, execution) && execution.taskRun == RowOf(s, execution.def)
      modifies store, execution`taskRun
      ensures outcome.None? <==> !Settled(s, execution.def.id) && !ShouldSkip(execution.def, s.run.params)
      ensures outcome.None? ==> unchanged(store) && unchanged(execution)
      ensures
        var t := TaskRun(execution.def, s, script);
        outcome.Some? ==>
          && Committed(s, execution.def.id, t, |t.writes|, old(store.log)) && store.working == store.committed
          && outcome.value == t.outcome && t.jobAt >= |t.writes|
          && store.committed.jobs == s.jobs
    {
      hide ShouldSkip, DependenciesReady, JobRun;
      if execution.taskRun.status.Succeeded? {
        return Some(AlreadySucceeded);
      }
      if execution.taskRun.status.Skipped? {
        return Some(AlreadySkipped);
      }
      var skip := MustSkip(execution);
      if !skip {
        return None;
      }
      execution.taskRun := SkippedRow(execution.taskRun);
      var ok := Save(execution, s, TaskRun(execution.def, s, script), 0, store.log);
      outcome := Some(TaskOutcome.Skipped);
    }

    method ValidateDependencies(execution: PipelineTaskExecution) returns (ready: bool)
      ensures ready == forall d | d in execution.taskRun.dependsOn :: Settled(store.working, d)
    {
      var dependsOn := execution.taskRun.dependsOn;
      for i := 0 to |dependsOn|
        invariant forall k | 0 <= k < i :: Settled(store.working, dependsOn[k])
      {
        var dependency := store.FindTask(dependsOn[i]);
        if dependency.None? || !(dependency.value.status.Succeeded? || dependency.value.status.Skipped?) {
          assert !Settled(store.working, dependsOn[i]);
          return false;
        }
      }
      ready := true;
    }

    /** Runs the attached job. */
    method ExecuteJob(execution: PipelineTaskExecution, env: JobRunner.Environment) returns (result: Option<Dict>)
      requires JobsReady() && execution.taskRun.jobId.Some?
      requires IsPending(execution.taskRun.jobId.value, jobRunner.store.committed)
      modifies jobRunner, jobRunner.store
      ensures result == JobRunner.Outcome(env) && JobsOk()
      ensures result.Some? ==> JobsReady()
      ensures
        var id, before := execution.taskRun.jobId.value, old(jobRunner.store.committed);
        jobRunner.store.committed == before[id := JobRunner.LeftBehind(before[id], jobRunner.name, env, JobErrorText)]
    {
      hide JobRunner.LeftBehind, JobRunner.Outcome, JobRunner.JobRunner.Valid, JobRunner.JobRunner.Idle;
      var finished := jobRunner.Run(execution.taskRun.jobId.value, env, JobErrorText);
      result := if finished.Ok? then finished.value.result else None;
    }

    method StartTask(execution: PipelineTaskExecution, ghost s: Snapshot, ghost t: TaskTrace, ghost log: seq<Snapshot>)
      requires Committed(s, execution.def.id, t, 0, log) && Loaded(s, execution)
      requires t.writes != [] && t.jobAt >= 1 && t.writes[0] == StartedRow(execution.taskRun)
      modifies store, execution`taskRun
      ensures Committed(s, execution.def.id, t, 1, log) && store.working == store.committed
      ensures execution.taskRun == t.writes[0]
    {
      execution.taskRun := execution.taskRun.(status := TaskStatus.Running, error := None);
      var ok := Save(execution, s, t, 0, log);
    }

    /** The job's row and the task's row are committed together. */
    method CreateAndAttachJob(execution: PipelineTaskExecution, steps: seq<string>, ghost s: Snapshot,
                              ghost t: TaskTrace, ghost log: seq<Snapshot>)
      requires JobsReady() && |store.committed.jobs| == |s.jobs|
      requires Committed(s, execution.def.id, t, 1, log) && store.working == store.committed
      requires |t.writes| > 1 && t.jobAt == 1 && execution.taskRun == t.writes[0]
      requires t.writes[1] == t.writes[0].(jobId := Some(|s.jobs|))
      modifies store, jobRunner, jobRunner.store, execution`taskRun
      ensures Committed(s, execution.def.id, t, 2, log) && store.working == store.committed
      ensures execution.taskRun == t.writes[1] && JobsReady()
      ensures jobRunner.store.committed == old(jobRunner.store.committed)[|s.jobs| := NewJob(steps)]
    {
      var job := store.CreateJob(execution.def.id);
      jobRunner.store.Create(job, NewJob(steps));
      execution.taskRun := execution.taskRun.(jobId := Some(job));
      var ok := Save(execution, s, t, 1, log);
      jobRunner.store.Commit();
      jobRunner.Did(JobProtocol.CreateJob(job, NewJob(steps).steps));
    }

    /** Records a finished job's result; the success is committed here, before the
        quality gate runs. */
    method RecordTaskResult(execution: PipelineTaskExecution, raw: Dict, ghost s: Snapshot, ghost t: TaskTrace,
                            ghost log: seq<Snapshot>)
      returns (error: Option<TaskError>)
      requires Committed(s, execution.def.id, t, 2, log) && store.working == store.committed
      requires |t.writes| > 2 && t.jobAt == 1 && execution.taskRun == t.writes[1]
      requires Normalize(raw, execution.def.outputs).Ok? ==>
        t.writes[2] == RecordedRow(t.writes[1], Normalize(raw, execution.def.outputs).value)
      modifies store, execution`taskRun
      ensures store.working == store.committed && store.committed.jobs == old(store.committed).jobs
      ensures error ==
        match Normalize(raw, execution.def.outputs)
        case Ok(_) => None
        case Err(name) => Some(OutputMissing(name))
      ensures error.None? ==> Committed(s, execution.def.id, t, 3, log) && execution.taskRun == t.writes[2]
      ensures error.Some? ==> Committed(s, execution.def.id, t, 2, log) && execution.taskRun == t.writes[1]
    {
      hide Normalize;
      var normalized := NormalizeTaskOutputs(raw, execution.def.outputs);
      if normalized.Err? {
        return Some(OutputMissing(normalized.error));
      }
      var row := execution.taskRun;
      row := row.(status := TaskStatus.Succeeded);
      row := row.(result := Some(TaskResult(row.id, row.jobId, Some(TaskStatus.Succeeded), normalized.value)));
      row := row.(error := None);
      execution.taskRun := row;
      var ok := Save(execution, s, t, 2, log);
      error := None;
    }

    /** Raises, as an error, the first rule that fires. */
    method ApplyQualityGate(execution: PipelineTaskExecution) returns (error: Option<TaskError>)
      requires execution.taskRun.result.Some?
      ensures error ==
        match FirstFiring(execution.def.rules, execution.taskRun.result.value.buckets)
        case None => None
        case Some(rule) => Some(QualityBlocked(rule.code))
    {
      hide FirstFiring;
      var fired := CheckTaskResult(execution.def.rules, execution.taskRun.result);
      error := if fired.Some? then Some(QualityBlocked(fired.value.code)) else None;
    }

    // ---- one task ----

    /** Creates the job and runs it. */
    method LaunchJob(execution: PipelineTaskExecution, script: TaskScript, ghost s: Snapshot, ghost t: TaskTrace,
                     ghost log: seq<Snapshot>)
      returns (result: Option<Dict>)
      requires |t.writes| > 1 && Committed(s, execution.def.id, t, 1, log) && store.working == store.committed
      requires execution.taskRun == t.writes[0] && t.jobAt == 1
      requires t.writes[1] == t.writes[0].(jobId := Some(|s.jobs|))
      requires JobsReady() && store.committed.jobs == s.jobs
      modifies store, jobRunner, jobRunner.store, execution`taskRun
      ensures Committed(s, execution.def.id, t, 2, log) && store.working == store.committed
      ensures execution.taskRun == t.writes[1] && result == JobRunner.Outcome(script.job)
      ensures JobsOk() && (result.Some? ==> JobsReady())
      ensures
        var row := JobRunner.LeftBehind(NewJob(script.steps), jobRunner.name, script.job, JobErrorText);
        jobRunner.store.committed == old(jobRunner.store.committed)[|s.jobs| := row]
    {
      hide JobRunner.LeftBehind, JobRunner.Outcome, Commits, After;
      CreateAndAttachJob(execution, script.steps, s, t, log);
      result := ExecuteJob(execution, script.job);
    }

    /** The steps from the job on; the first error ends them. */
    method AttemptJob(execution: PipelineTaskExecution, script: TaskScript, ghost s: Snapshot, ghost t: TaskTrace,
                      ghost log: seq<Snapshot>)
      returns (error: Option<TaskError>)
      requires t.writes != [] && Committed(s, execution.def.id, t, 1, log) && store.working == store.committed
      requires execution.taskRun == t.writes[0] && HasJobRun(t, execution.def, s, script)
      requires JobsReady() && store.committed.jobs == s.jobs
      modifies store, jobRunner, jobRunner.store, execution`taskRun
      ensures JobsOk() && (error.None? ==> JobsReady())
      ensures jobRunner.store.committed == JobTable(old(jobRunner.store.committed), s, t, script, jobRunner.name)
      ensures error.None? ==>
        t.outcome.Succeeded? && Committed(s, execution.def.id, t, |t.writes|, log) && store.working == store.committed
      ensures error.Some? ==>
        ErrorLeft(t, execution.taskRun, error.value) && Committed(s, execution.def.id, t, |t.writes| - 1, log)
      ensures execution.def.id in store.committed.tasks
    {
      hide Normalize, FirstFiring, JobRun, Commits, JobRunner.Outcome, JobRunner.LeftBehind, NewJob;
      hide JobRunner.JobRunner.Valid, JobRunner.JobRunner.Idle;
      JobRunWrites(execution.def, t.writes[0].(jobId := Some(|s.jobs|)), script);
      var result := LaunchJob(execution, script, s, t, log);
      if result.None? {
        return Some(JobFailed);
      }
      error := RecordTaskResult(execution, result.value, s, t, log);
      if error.Some? {
        return;
      }
      error := ApplyQualityGate(execution);
    }

    /** The steps that may raise, in order; the first error ends them. What is then
        left of the task's trace is the one write that records the error. */
    method Attempt(execution: PipelineTaskExecution, script: TaskScript, ghost s: Snapshot, ghost log: seq<Snapshot>)
      returns (error: Option<TaskError>)
      requires Loaded(s, execution) && execution.taskRun == RowOf(s, execution.def)
      requires s == store.committed && store.log == log
      requires !Settled(s, execution.def.id) && !ShouldSkip(execution.def, s.run.params) && JobsReady()
      modifies store, jobRunner, jobRunner.store, execution`taskRun, execution`inputs
      ensures JobsOk() && (error.None? ==> JobsReady())
      ensures jobRunner.store.committed ==
        JobTable(old(jobRunner.store.committed), s, TaskRun(execution.def, s, script), script, jobRunner.name)
      ensures
        var t := TaskRun(execution.def, s, script);
        if error.None? then
          t.outcome.Succeeded? && Committed(s, execution.def.id, t, |t.writes|, log) && store.working == store.committed
        else if execution.def.id !in store.committed.tasks then
          && !error.value.QualityBlocked? && t == TaskTrace([], 0, Raised(RowMissing))
          && Committed(s, execution.def.id, t, 0, log)
        else
          ErrorLeft(t, execution.taskRun, error.value) && Committed(s, execution.def.id, t, |t.writes| - 1, log)
    {
      hide ShouldSkip, DependenciesReady, Settled, TaskRun, JobRun, EarlyFailure;
      UnsettledRun(execution.def, s, script);
      ghost var t := TaskRun(execution.def, s, script);
      ReadyInTransaction(s, execution.def, store.working);
      var ready := ValidateDependencies(execution);
      if !ready {
        EarlyFailureLeaves(execution.def, s, DependencyNotReady);
        return Some(DependencyNotReady);
      }
      if !script.resolves {
        EarlyFailureLeaves(execution.def, s, InputsUnresolved);
        return Some(InputsUnresolved);
      }
      var inputs := ResolveUpstream(execution.def.dependsOn, store.working.tasks);
      execution.inputs := Some(inputs);
      StartTask(execution, s, t, log);
      if !script.plans {
        return Some(PlanningFailed);
      }
      error := AttemptJob(execution, script, s, t, log);
    }

    /** After an error: discard the open transaction and record the error, which
        raises in turn if the row was never committed. */
    method RecordError(execution: PipelineTaskExecution, error: TaskError, ghost s: Snapshot, ghost t: TaskTrace,
                       ghost log: seq<Snapshot>)
      returns (outcome: TaskOutcome)
      requires
        if execution.def.id !in store.committed.tasks then
          && !error.QualityBlocked? && t == TaskTrace([], 0, Raised(RowMissing))
          && Committed(s, execution.def.id, t, 0, log)
        else
          ErrorLeft(t, execution.taskRun, error) && Committed(s, execution.def.id, t, |t.writes| - 1, log)
      requires JobsOk()
      modifies store, jobRunner.store`working, execution`taskRun
      ensures Committed(s, execution.def.id, t, |t.writes|, log) && store.working == store.committed
      ensures outcome == t.outcome && JobsReady()
    {
      store.Rollback();
      jobRunner.store.Rollback();
      var status := if error.QualityBlocked? then TaskStatus.Blocked else TaskStatus.Failed;
      execution.taskRun := execution.taskRun.(status := status, error := Some(error));
      var ok := Save(execution, s, t, if t.writes == [] then 0 else |t.writes| - 1, log);
      if !ok {
        return Raised(RowMissing);
      }
      outcome := if error.QualityBlocked? then TaskOutcome.Blocked(error) else Raised(error);
    }

    method Run(def: TaskDef, script: TaskScript) returns (outcome: TaskOutcome)
      requires store.working == store.committed && JobsReady()
      modifies store, jobRunner, jobRunner.store
      ensures JobsReady()
      ensures
        var s := old(store.committed);
        jobRunner.store.committed ==
          JobTable(old(jobRunner.store.committed), s, TaskRun(def, s, script), script, jobRunner.name)
      ensures
        var t := TaskRun(def, old(store.committed), script);
        && outcome == t.outcome
        && store.log == old(store.log) + Commits(old(store.committed), def.id, t)
        && store.committed == store.working == AfterAll(old(store.committed), def.id, t)
    {
      hide TaskRun, ShouldSkip, Settled, Commits, After, Loaded, ErrorLeft;
      ghost var s, log := store.committed, store.log;
      ghost var t := TaskRun(def, s, script);
      AllCommitted(s, def.id, t);
      var execution := PrepareExecution(def);
      var unrun := HandlePreExecutionState(execution, s, script);
      if unrun.Some? {
        return unrun.value;
      }
      var error := Attempt(execution, script, s, log);
      if error.None? {
        return TaskOutcome.Succeeded;
      }
      outcome := RecordError(execution, error.value, s, t, log);
    }
  }

  const JobErrorText := "the job failed"

  /** A job's row as created: pending, with its steps pending. */
  function NewJob(steps: seq<string>): JobRecords.Row {
    var pending := seq(|steps|, i requires 0 <= i < |steps| =>
      JobRecords.Step(steps[i], steps[i], JobRecords.StepPending));
    JobRecords.Row(JobRecords.Pending, pending, None, None, None)
  }

  predicate IsPending(id: JobProtocol.JobId, jobs: map<JobProtocol.JobId, JobRecords.Row>) {
    id in jobs && jobs[id].status.Pending?
  }

  /** The job table after a task run: one more row, if the run got as far as a job. */
  function JobTable(before: map<JobProtocol.JobId, JobRecords.Row>, s: Snapshot, t: TaskTrace, script: TaskScript,
                    worker: string): map<JobProtocol.JobId, JobRecords.Row> {
    if t.jobAt < |t.writes|
    then before[|s.jobs| := JobRunner.LeftBehind(NewJob(script.steps), worker, script.job, JobErrorText)]
    else before
  }

  /** A task that records a success has a succeeded job with that very result. */
  lemma RecordedJobSucceeded(def: TaskDef, s: Snapshot, script: TaskScript, worker: string,
                             before: map<JobProtocol.JobId, JobRecords.Row>)
    requires TaskRun(def, s, script).outcome.Succeeded? || TaskRun(def, s, script).outcome.Blocked?
    ensures
      var t := TaskRun(def, s, script);
      var row := t.writes[|t.writes| - 1];
      var jobs := JobTable(before, s, t, script, worker);
      && row.jobId == Some(|s.jobs|) && row.result.Some?
      && |s.jobs| in jobs && jobs[|s.jobs|].status.Succeeded?
      && jobs[|s.jobs|].result == Some(row.result.value.buckets.raw)
  {
    hide FirstFiring, ShouldSkip, DependenciesReady, FirstLacking, Bucket;
    hide JobRecords.StartFirstPending, JobRecords.EndFirstRunning;
  }

  /** The job of a recorded success took its first step and no other; its steps are those
      that were planned. */
  lemma RecordedJobSteps(def: TaskDef, s: Snapshot, script: TaskScript, worker: string,
                         before: map<JobProtocol.JobId, JobRecords.Row>)
    requires TaskRun(def, s, script).outcome.Succeeded? || TaskRun(def, s, script).outcome.Blocked?
    ensures
      var jobs := JobTable(before, s, TaskRun(def, s, script), script, worker);
      && |s.jobs| in jobs && jobs[|s.jobs|].error == None && jobs[|s.jobs|].workerId == Some(worker)
      && |jobs[|s.jobs|].steps| == |script.steps|
      && forall i | 0 <= i < |script.steps| ::
           var step := jobs[|s.jobs|].steps[i];
           && step.id == step.name == script.steps[i]
           && step.status == if i == 0 then JobRecords.StepSucceeded else JobRecords.StepPending
  {
    hide FirstFiring, ShouldSkip, DependenciesReady, FirstLacking, Bucket, Normalize, JobRunner.LeftBehind;
    var row := NewJob(script.steps);
    assert JobRunner.Outcome(script.job).Some?;
    JobRecords.NoneRunning(row.steps);
    JobRunner.FinalFields(row, worker, script.job, JobErrorText);
    if script.steps == [] {
      JobRunner.RunWithoutPendingStep(row, worker, script.job, JobErrorText);
    } else {
      JobRunner.RunTakesOneStep(row, worker, script.job, JobErrorText, 0);
    }
  }

  lemma AllCommitted(s: Snapshot, id: string, t: TaskTrace)
    ensures Commits(s, id, t)[..|t.writes|] == Commits(s, id, t)
  {
  }

  // ---- the whole run ----

  class PipelineRunner {
    const store: PipelineStore
    const taskRunner: PipelineTaskRunner

    constructor (store: PipelineStore, jobRunner: JobRunner.JobRunner)
      ensures this.store == taskRunner.store == store && fresh(taskRunner) && taskRunner.jobRunner == jobRunner
    {
      this.store := store;
      taskRunner := new PipelineTaskRunner(store, jobRunner);
    }

    /** The run's row; or the error, when the run is refused or a task raises. */
    method Run(defs: seq<TaskDef>, scripts: Scripts) returns (r: Result<RunRow, Option<TaskError>>)
      requires taskRunner.store == store && store.working == store.committed && taskRunner.JobsReady()
      modifies store, taskRunner.jobRunner, taskRunner.jobRunner.store
      ensures taskRunner.JobsReady()
      ensures store.log == old(store.log) + RunCommits(defs, old(store.committed), scripts)
      ensures store.committed == store.working == AfterRun(defs, old(store.committed), scripts)
      ensures r == if !Startable(old(store.committed).run.status) then Err(None)
                   else if store.committed.run.status.Failed? then Err(store.committed.run.error)
                   else Ok(store.committed.run)
    {
      hide Loop, Finished, SortBy;
      var run := store.working.run;
      if run.status.Succeeded? || run.status.Running? || run.status.Cancelled? || run.status.Blocked? {
        return Err(None);
      }
      store.SaveRun(run.(status := RunStatus.Running, error := None));
      store.Commit();
      var ordered := SortBy(defs, RankOf);
      ghost var started := store.committed;
      var stop := RunTasks(ordered, scripts);
      LoopLeavesRun(ordered, started, scripts);
      r := EndRun(ordered, stop);
    }

    /** Lists the tasks, and saves the run's ending with the result built from them. */
    method EndRun(ordered: seq<TaskDef>, stop: Option<TaskOutcome>) returns (r: Result<RunRow, Option<TaskError>>)
      requires taskRunner.store == store && store.working == store.committed && taskRunner.JobsReady()
      requires stop.Some? ==> Stops(stop.value)
      modifies store
      ensures taskRunner.JobsReady()
      ensures store.committed == store.working == Finished(old(store.committed), ordered, stop)
      ensures store.log == old(store.log) + [store.committed]
      ensures r ==
        var run := store.committed.run;
        if run.status.Failed? then Err(run.error) else Ok(run)
    {
      hide BuiltResult, Listed;
      var rows := store.ListTasks(ordered);
      var status := RunStatus.Succeeded;
      var error: Option<TaskError> := None;
      if stop.Some? {
        if stop.value.Raised? {
          store.Rollback();
        }
        status := if stop.value.Blocked? then RunStatus.Blocked else RunStatus.Failed;
        error := Some(stop.value.error);
      }
      var result := BuildPipelineResult(rows, status);
      store.SaveRun(RunRow(status, store.working.run.params, error, Some(result)));
      store.Commit();
      r := if status.Failed? then Err(error) else Ok(store.committed.run);
    }

    /** The ordered tasks, until one is blocked or raises. */
    method RunTasks(ordered: seq<TaskDef>, scripts: Scripts) returns (stop: Option<TaskOutcome>)
      requires taskRunner.store == store && store.working == store.committed && taskRunner.JobsReady()
      modifies store, taskRunner.jobRunner, taskRunner.jobRunner.store
      ensures taskRunner.JobsReady()
      ensures
        var t := Loop(ordered, old(store.committed), scripts);
        && stop == t.stop && store.log == old(store.log) + t.commits
        && store.committed == store.working == LastOf(old(store.committed), t.commits)
    {
      hide TaskRun, Loop, After, Commits, LastOf;
      ghost var s, log := store.committed, store.log;
      ghost var passed: seq<Snapshot> := [];
      assert ordered[0..] == ordered;
      for i := 0 to |ordered|
        invariant store.working == store.committed && store.log == log + passed && taskRunner.JobsReady()
        invariant Loop(ordered, s, scripts).commits == passed + Loop(ordered[i..], store.committed, scripts).commits
        invariant Loop(ordered, s, scripts).stop == Loop(ordered[i..], store.committed, scripts).stop
        invariant LastOf(s, Loop(ordered, s, scripts).commits) ==
          LastOf(store.committed, Loop(ordered[i..], store.committed, scripts).commits)
      {
        assert ordered[i..][0] == ordered[i] && ordered[i..][1..] == ordered[i + 1..];
        ghost var first, mid := LoopStep(ordered[i..], store.committed, scripts);
        passed := passed + Commits(store.committed, ordered[i].id, first);
        var outcome := taskRunner.Run(ordered[i], scripts(ordered[i].id));
        if outcome.Blocked? || outcome.Raised? {
          return Some(outcome);
        }
      }
      EmptyLoop(store.committed, scripts);
      assert ordered[|ordered|..] == [];
      stop := None;
    }
  }

  // ---- the API's side ----

  datatype CreateError = Unsupported | ParamsNotAnObject

  class PipelineService {

    constructor () {}

    /** One pending row per task, in order. */
    method CreatePipelineRun(def: PipelineDef, params: Dict) returns (r: Result<PipelineStore, CreateError>)
      ensures r == Err(Unsupported) <==> !def.supported || !def.implemented
      ensures r == Err(ParamsNotAnObject) <==>
        && def.supported && def.implemented
        && exists i :: 0 <= i < |def.tasks| && def.tasks[i].id in params && !params[def.tasks[i].id].Obj?
      ensures r.Ok? ==> fresh(r.value) && r.value.committed == r.value.working == Created(def.tasks, params)
    {
      hide SortBy;
      if !def.supported || !def.implemented {
        return Err(Unsupported);
      }
      OrderKeepsDefs(def.tasks);
      var ordered := SortBy(def.tasks, RankOf);
      var store := new PipelineStore(Snapshot(RunRow(RunStatus.Pending, params, None, None), map[], []));
      for i := 0 to |ordered|
        invariant fresh(store)
        invariant forall k | 0 <= k < i :: ordered[k].id in params ==> params[ordered[k].id].Obj?
        invariant store.working ==
          Snapshot(RunRow(RunStatus.Pending, params, None, None), FreshRows(ordered[..i], params), [])
      {
        var task := ordered[i];
        if task.id in params && !params[task.id].Obj? {
          assert ordered[i] in def.tasks;
          return Err(ParamsNotAnObject);
        }
        assert ordered[..i + 1][..i] == ordered[..i];
        var overrides := if task.id in params then params[task.id].fields else map[];
        store.CreateTask(TaskRow(task.id, task.order, TaskStatus.Pending, task.dependsOn,
                                 task.defaultParams + overrides, None, None, None));
      }
      assert ordered[..|ordered|] == ordered;
      forall i | 0 <= i < |def.tasks|
        ensures def.tasks[i].id in params ==> params[def.tasks[i].id].Obj?
      {
        assert def.tasks[i] in ordered;
      }
      store.Commit();
      r := Ok(store);
    }

    /** Only a run that is not running, succeeded or cancelled can be queued. */
    method MarkQueued(store: PipelineStore) returns (ok: bool)
      requires store.working == store.committed
      modifies store
      ensures ok == Queueable(old(store.committed).run.status)
      ensures store.committed == store.working && store.committed.tasks == old(store.committed).tasks
      ensures forall defs :: store.log == old(store.log) + OpCommits(defs, old(store.committed), Queue)
      ensures forall defs ::
        store.committed == LastOf(old(store.committed), OpCommits(defs, old(store.committed), Queue))
    {
      var run := store.working.run;
      if run.status.Running? || run.status.Succeeded? || run.status.Cancelled? {
        return false;
      }
      store.SaveRun(run.(status := RunStatus.Queued));
      store.Commit();
      ok := true;
    }
  }

  lemma OrderKeepsDefs(defs: seq<TaskDef>)
    ensures forall d :: d in SortBy(defs, RankOf) <==> d in defs
  {
    SortByMembers(defs, RankOf);
  }

  /** `t` is a start, an attached job, and what the job comes to. */
  ghost predicate HasJobRun(t: TaskTrace, def: TaskDef, s: Snapshot, script: TaskScript)
    requires t.writes != []
  {
    var attached := t.writes[0].(jobId := Some(|s.jobs|));
    t == TaskTrace([t.writes[0], attached] + JobRun(def, attached, script).0, 1, JobRun(def, attached, script).1)
  }

  /** The row as the error handler leaves it. */
  function Ended(row: TaskRow, error: TaskError): TaskRow {
    row.(status := if error.QualityBlocked? then TaskStatus.Blocked else TaskStatus.Failed, error := Some(error))
  }

  function Stopping(error: TaskError): TaskOutcome {
    if error.QualityBlocked? then TaskOutcome.Blocked(error) else Raised(error)
  }

  /** The last write of `t` records `error` on `row`, and comes with no job. */
  ghost predicate ErrorLeft(t: TaskTrace, row: TaskRow, error: TaskError) {
    && t.writes != [] && t.writes[|t.writes| - 1] == Ended(row, error)
    && t.outcome == Stopping(error) && t.jobAt != |t.writes| - 1
  }

  lemma ReadyInTransaction(s: Snapshot, def: TaskDef, working: Snapshot)
    requires !Settled(s, def.id) && working == s.(tasks := s.tasks[def.id := RowOf(s, def)])
    ensures forall d :: Settled(working, d) <==> Settled(s, d)
    ensures DependenciesReady(RowOf(s, def), s) <==> forall d | d in RowOf(s, def).dependsOn :: Settled(working, d)
  {
  }

  lemma UnsettledRun(def: TaskDef, s: Snapshot, script: TaskScript)
    requires !Settled(s, def.id) && !ShouldSkip(def, s.run.params)
    ensures
      var t, row := TaskRun(def, s, script), RowOf(s, def);
      if !DependenciesReady(row, s) then t == EarlyFailure(def, s, DependencyNotReady)
      else if !script.resolves then t == EarlyFailure(def, s, InputsUnresolved)
      else if !script.plans then
        t == TaskTrace([StartedRow(row), Ended(StartedRow(row), PlanningFailed)], 2, Raised(PlanningFailed))
      else
        var attached := StartedRow(row).(jobId := Some(|s.jobs|));
        var (last, outcome) := JobRun(def, attached, script);
        t == TaskTrace([StartedRow(row), attached] + last, 1, outcome)
  {
    hide DependenciesReady, ShouldSkip, JobRun;
  }

  lemma EarlyFailureLeaves(def: TaskDef, s: Snapshot, error: TaskError)
    requires !error.QualityBlocked?
    ensures After(s, def.id, EarlyFailure(def, s, error), 0) == s
    ensures def.id !in s.tasks ==> EarlyFailure(def, s, error) == TaskTrace([], 0, Raised(RowMissing))
    ensures def.id in s.tasks ==>
      ErrorLeft(EarlyFailure(def, s, error), s.tasks[def.id], error) && |EarlyFailure(def, s, error).writes| == 1
  {
  }

  lemma JobRunWrites(def: TaskDef, row: TaskRow, script: TaskScript)
    ensures
      var (writes, outcome) := JobRun(def, row, script);
      match JobRunner.Outcome(script.job)
      case None => writes == [Ended(row, JobFailed)] && outcome == Raised(JobFailed)
      case Some(raw) =>
        match Normalize(raw, def.outputs)
        case Err(name) => writes == [Ended(row, OutputMissing(name))] && outcome == Raised(OutputMissing(name))
        case Ok(b) =>
          match FirstFiring(def.rules, b)
          case None => writes == [RecordedRow(row, b)] && outcome == TaskOutcome.Succeeded
          case Some(rule) =>
            && writes == [RecordedRow(row, b), Ended(RecordedRow(row, b), QualityBlocked(rule.code))]
            && outcome == TaskOutcome.Blocked(QualityBlocked(rule.code))
  {
    hide Normalize, FirstFiring, JobRunner.Outcome;
  }
}
