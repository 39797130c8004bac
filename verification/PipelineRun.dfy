/** A pipeline run as the sequence of snapshots its runner commits. */
module PipelineRun {
  import opened Prelude
  import opened Json
  import opened Ordering
  import opened PipelineRecords
  import opened TaskResults
  import opened RunResults
  import JobRunner

  /** The committed rows of one run, and for which task each job was created. */
  datatype Snapshot = Snapshot(run: RunRow, tasks: map<string, TaskRow>, jobs: seq<string>)

  /** What the environment does to one task: whether its inputs resolve, whether its
      job can be planned and with which steps, and how the job's run goes. */
  datatype TaskScript = TaskScript(resolves: bool, plans: bool, steps: seq<string>, job: JobRunner.Environment)

  type Scripts = string -> TaskScript

  datatype PipelineDef = PipelineDef(tasks: seq<TaskDef>, supported: bool, implemented: bool)

  // ---- definitions ----

  function IdOf(def: TaskDef): string {
    def.id
  }

  function RankOf(def: TaskDef): int {
    def.order
  }

  function InOrder(defs: seq<TaskDef>): seq<TaskDef> {
    SortBy(defs, RankOf)
  }

  predicate HasId(defs: seq<TaskDef>, id: string) {
    exists i | 0 <= i < |defs| :: defs[i].id == id
  }

  predicate DistinctIds(defs: seq<TaskDef>) {
    DistinctBy(defs, IdOf)
  }

  predicate DependenciesExist(defs: seq<TaskDef>) {
    forall i, d | 0 <= i < |defs| && d in defs[i].dependsOn :: HasId(defs, d)
  }

  // ---- a fresh run ----

  /** The parameters that a run gives to one task by its id. */
  function Overrides(def: TaskDef, params: Dict): Dict {
    if def.id in params && params[def.id].Obj? then params[def.id].fields else map[]
  }

  function FreshRow(def: TaskDef, params: Dict): TaskRow {
    TaskRow(def.id, def.order, TaskStatus.Pending, def.dependsOn, def.defaultParams + Overrides(def, params),
            None, None, None)
  }

  function FreshRows(defs: seq<TaskDef>, params: Dict): map<string, TaskRow> {
    if defs == [] then map[]
    else FreshRows(defs[..|defs| - 1], params)[defs[|defs| - 1].id := FreshRow(defs[|defs| - 1], params)]
  }

  function Created(defs: seq<TaskDef>, params: Dict): Snapshot {
    Snapshot(RunRow(RunStatus.Pending, params, None, None), FreshRows(InOrder(defs), params), [])
  }

  // ---- one task ----

  predicate Settled(s: Snapshot, id: string) {
    id in s.tasks && (s.tasks[id].status.Succeeded? || s.tasks[id].status.Skipped?)
  }

  function RowOf(s: Snapshot, def: TaskDef): TaskRow {
    if def.id in s.tasks then s.tasks[def.id] else FreshRow(def, map[])
  }

  function CandidateKeys(def: TaskDef): seq<string> {
    def.paramKeys + [def.id, def.name, def.jobType]
  }

  predicate GivesParams(params: Dict, key: string) {
    key in params && params[key].Obj? && params[key].fields != map[]
  }

  /** An optional task runs only if some candidate key carries parameters. */
  predicate ShouldSkip(def: TaskDef, params: Dict) {
    def.optional && forall key | key in CandidateKeys(def) :: !GivesParams(params, key)
  }

  predicate DependenciesReady(row: TaskRow, s: Snapshot) {
    forall d | d in row.dependsOn :: Settled(s, d)
  }

  function SkippedRow(row: TaskRow): TaskRow {
    var raw := map["skipped" := Bool(true), "reason" := Str("optional task params not provided")];
    row.(status := TaskStatus.Skipped, result := Some(TaskResult(row.id, None, None, NoBuckets(raw))))
  }

  function StartedRow(row: TaskRow): TaskRow {
    row.(status := TaskStatus.Running, error := None)
  }

  function RecordedRow(row: TaskRow, b: Buckets): TaskRow {
    row.(status := TaskStatus.Succeeded,
         result := Some(TaskResult(row.id, row.jobId, Some(TaskStatus.Succeeded), b)),
         error := None)
  }

  function BlockedRow(row: TaskRow, rule: QualityRule): TaskRow {
    row.(status := TaskStatus.Blocked, error := Some(QualityBlocked(rule.code)))
  }

  function FailedRow(row: TaskRow, error: TaskError): TaskRow {
    row.(status := TaskStatus.Failed, error := Some(error))
  }

  datatype TaskOutcome =
    | Succeeded
    | Skipped
    | Blocked(error: TaskError)
    | AlreadySucceeded
    | AlreadySkipped
    | Raised(error: TaskError)

  /** What one task run writes to its row, each write with its own commit. The job is
      created together with the write at `jobAt`, if there are that many. */
  datatype TaskTrace = TaskTrace(writes: seq<TaskRow>, jobAt: nat, outcome: TaskOutcome)

  function TaskRun(def: TaskDef, s: Snapshot, script: TaskScript): TaskTrace {
    var row := RowOf(s, def);
    if row.status.Succeeded? then TaskTrace([], 0, AlreadySucceeded)
    else if row.status.Skipped? then TaskTrace([], 0, AlreadySkipped)
    else if ShouldSkip(def, s.run.params) then TaskTrace([SkippedRow(row)], 1, TaskOutcome.Skipped)
    else if !DependenciesReady(row, s) then EarlyFailure(def, s, DependencyNotReady)
    else if !script.resolves then EarlyFailure(def, s, InputsUnresolved)
    else if !script.plans then
      TaskTrace([StartedRow(row), FailedRow(StartedRow(row), PlanningFailed)], 2, Raised(PlanningFailed))
    else
      var attached := StartedRow(row).(jobId := Some(|s.jobs|));
      var (last, outcome) := JobRun(def, attached, script);
      TaskTrace([StartedRow(row), attached] + last, 1, outcome)
  }

  /** The failure can only be saved on a row that was committed before; otherwise
      saving raises in turn. */
  function EarlyFailure(def: TaskDef, s: Snapshot, error: TaskError): TaskTrace {
    if def.id in s.tasks then TaskTrace([FailedRow(s.tasks[def.id], error)], 1, Raised(error))
    else TaskTrace([], 0, Raised(RowMissing))
  }

  /** From the attached job on. */
  function JobRun(def: TaskDef, row: TaskRow, script: TaskScript): (seq<TaskRow>, TaskOutcome) {
    match JobRunner.Outcome(script.job)
    case None => ([FailedRow(row, JobFailed)], Raised(JobFailed))
    case Some(raw) =>
      match Normalize(raw, def.outputs)
      case Err(name) => ([FailedRow(row, OutputMissing(name))], Raised(OutputMissing(name)))
      case Ok(b) =>
        match FirstFiring(def.rules, b)
        case None => ([RecordedRow(row, b)], TaskOutcome.Succeeded)
        case Some(rule) =>
          ([RecordedRow(row, b), BlockedRow(RecordedRow(row, b), rule)], TaskOutcome.Blocked(QualityBlocked(rule.code)))
  }

  /** The snapshot after the first `n` writes of a task run. */
  function After(s: Snapshot, id: string, t: TaskTrace, n: nat): Snapshot
    requires n <= |t.writes|
  {
    if n == 0 then s
    else s.(tasks := s.tasks[id := t.writes[n - 1]], jobs := if t.jobAt < n then s.jobs + [id] else s.jobs)
  }

  function Commits(s: Snapshot, id: string, t: TaskTrace): seq<Snapshot> {
    seq(|t.writes|, i requires 0 <= i < |t.writes| => After(s, id, t, i + 1))
  }

  function AfterAll(s: Snapshot, id: string, t: TaskTrace): Snapshot {
    After(s, id, t, |t.writes|)
  }

  // ---- the ordered loop ----

  /** `done` tasks were passed; the next one, if any, stopped the run. */
  datatype LoopTrace = LoopTrace(commits: seq<Snapshot>, done: nat, stop: Option<TaskOutcome>)

  predicate Stops(outcome: TaskOutcome) {
    outcome.Blocked? || outcome.Raised?
  }

  function Loop(defs: seq<TaskDef>, s: Snapshot, scripts: Scripts): (t: LoopTrace)
    ensures t.done <= |defs| && (t.done < |defs| <==> t.stop.Some?)
    ensures t.stop.Some? ==> Stops(t.stop.value)
  {
    if defs == [] then LoopTrace([], 0, None)
    else
      var first := TaskRun(defs[0], s, scripts(defs[0].id));
      var commits := Commits(s, defs[0].id, first);
      if Stops(first.outcome) then LoopTrace(commits, 0, Some(first.outcome))
      else
        var rest := Loop(defs[1..], AfterAll(s, defs[0].id, first), scripts);
        LoopTrace(commits + rest.commits, rest.done + 1, rest.stop)
  }

  function LastOf(s: Snapshot, commits: seq<Snapshot>): Snapshot {
    if commits == [] then s else commits[|commits| - 1]
  }

  // ---- the whole run ----

  predicate Startable(status: RunStatus) {
    !status.Succeeded? && !status.Running? && !status.Cancelled? && !status.Blocked?
  }

  /** The listed rows, in order; the listing stops at one hundred. */
  function Listed(ordered: seq<TaskDef>, tasks: map<string, TaskRow>): seq<TaskRow> {
    var rows := RowsOf(ordered, tasks);
    if |rows| <= 100 then rows else rows[..100]
  }

  function RowsOf(ordered: seq<TaskDef>, tasks: map<string, TaskRow>): seq<TaskRow> {
    if ordered == [] then []
    else (if ordered[0].id in tasks then [tasks[ordered[0].id]] else []) + RowsOf(ordered[1..], tasks)
  }

  function Started(s: Snapshot): Snapshot {
    s.(run := s.run.(status := RunStatus.Running, error := None))
  }

  function FinalStatus(stop: Option<TaskOutcome>): RunStatus {
    match stop
    case None => RunStatus.Succeeded
    case Some(outcome) => if outcome.Blocked? then RunStatus.Blocked else RunStatus.Failed
  }

  function Finished(s: Snapshot, ordered: seq<TaskDef>, stop: Option<TaskOutcome>): Snapshot
    requires stop.Some? ==> Stops(stop.value)
  {
    var status := FinalStatus(stop);
    var error := if stop.Some? then Some(stop.value.error) else None;
    s.(run := RunRow(status, s.run.params, error, Some(BuiltResult(Listed(ordered, s.tasks), status))))
  }

  /** Everything a run commits; nothing when it is refused. */
  function RunCommits(defs: seq<TaskDef>, s: Snapshot, scripts: Scripts): seq<Snapshot> {
    if !Startable(s.run.status) then []
    else
      var t := Loop(InOrder(defs), Started(s), scripts);
      [Started(s)] + t.commits + [Finished(LastOf(Started(s), t.commits), InOrder(defs), t.stop)]
  }

  function AfterRun(defs: seq<TaskDef>, s: Snapshot, scripts: Scripts): Snapshot {
    LastOf(s, RunCommits(defs, s, scripts))
  }

  /** A run commits nothing exactly when it is running, blocked, succeeded or cancelled. */
  lemma RefusedIff(defs: seq<TaskDef>, s: Snapshot, scripts: Scripts)
    ensures RunCommits(defs, s, scripts) == [] <==>
      || s.run.status == RunStatus.Running || s.run.status == RunStatus.Blocked
      || s.run.status == RunStatus.Succeeded || s.run.status == RunStatus.Cancelled
    ensures
      var commits := RunCommits(defs, s, scripts);
      commits != [] ==>
        && commits[0].run.status == RunStatus.Running && commits[0].run.error == None
        && commits[0].tasks == s.tasks && commits[0].jobs == s.jobs
  {
  }

  // ---- many runs ----

  predicate Queueable(status: RunStatus) {
    !status.Running? && !status.Succeeded? && !status.Cancelled?
  }

  datatype Op = Execute(scripts: Scripts) | Queue

  function OpCommits(defs: seq<TaskDef>, s: Snapshot, op: Op): seq<Snapshot> {
    match op
    case Execute(scripts) => RunCommits(defs, s, scripts)
    case Queue => if Queueable(s.run.status) then [s.(run := s.run.(status := RunStatus.Queued))] else []
  }

  /** Queuing is refused exactly for a running, succeeded or cancelled run, so a blocked one
      can be run again once it is queued. */
  lemma QueuingRefusedIff(defs: seq<TaskDef>, s: Snapshot)
    ensures OpCommits(defs, s, Queue) == [] <==>
      || s.run.status == RunStatus.Running
      || s.run.status == RunStatus.Succeeded || s.run.status == RunStatus.Cancelled
    ensures OpCommits(defs, s, Queue) != [] ==>
      OpCommits(defs, s, Queue) == [Snapshot(s.run.(status := RunStatus.Queued), s.tasks, s.jobs)]
  {
  }

  /** Every snapshot committed by a sequence of runs and queuings. */
  function History(defs: seq<TaskDef>, s: Snapshot, ops: seq<Op>): seq<Snapshot>
    decreases |ops|
  {
    if |ops| == 0 then []
    else
      var first := OpCommits(defs, s, ops[0]);
      first + History(defs, LastOf(s, first), ops[1..])
  }
}
