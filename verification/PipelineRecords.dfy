/** Pipeline definitions, and the rows a pipeline run leaves in the store. */
module PipelineRecords {
  import opened Prelude
  import opened Json

  datatype TaskStatus = Pending | Waiting | Running | Succeeded | Blocked | Failed | Skipped | Cancelled

  datatype RunStatus = Pending | Queued | Running | Blocked | Succeeded | Failed | Cancelled

  // ---- definitions ----

  datatype OutputKind = Ref | Summary | Metric | Artifact

  /** A declared output; a null default stands for none. */
  datatype OutputSpec = OutputSpec(
    name: string,
    kind: OutputKind,
    source: string,
    target: Option<string>,
    required: bool,
    default: Value)

  datatype RuleType = BlockIfTrue | BlockIfEquals | BlockIfIn

  datatype QualityRule = QualityRule(ruleType: RuleType, source: string, value: Value, code: string)

  datatype TaskDef = TaskDef(
    id: string,
    name: string,
    order: int,
    jobType: string,
    dependsOn: seq<string>,
    defaultParams: Dict,
    optional: bool,
    paramKeys: seq<string>,
    outputs: seq<OutputSpec>,
    rules: seq<QualityRule>)

  // ---- rows ----

  datatype Buckets = Buckets(refs: Dict, summary: Dict, metrics: Dict, artifacts: Dict, raw: Dict)

  type JobRef = nat

  datatype TaskResult = TaskResult(
    taskId: string,
    jobId: Option<JobRef>,
    jobStatus: Option<TaskStatus>,
    buckets: Buckets)

  datatype TaskError =
    | DependencyNotReady
    | InputsUnresolved
    | PlanningFailed
    | JobFailed
    | OutputMissing(name: string)
    | QualityBlocked(code: string)
    | RowMissing

  datatype TaskRow = TaskRow(
    id: string,
    order: int,
    status: TaskStatus,
    dependsOn: seq<string>,
    params: Dict,
    jobId: Option<JobRef>,
    result: Option<TaskResult>,
    error: Option<TaskError>)

  datatype RunSummary = RunSummary(
    status: RunStatus,
    taskCount: nat,
    succeeded: nat,
    skipped: nat,
    blocked: nat,
    failed: nat)

  datatype RunResult = RunResult(
    summary: RunSummary,
    artifacts: map<string, string>,
    outputs: Dict,
    metrics: Dict,
    tasks: seq<TaskResult>)

  datatype RunRow = RunRow(status: RunStatus, params: Dict, error: Option<TaskError>, result: Option<RunResult>)

  function NoBuckets(raw: Dict): Buckets {
    Buckets(map[], map[], map[], map[], raw)
  }
}
