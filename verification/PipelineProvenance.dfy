/** What the stored results say once a run has returned: gates passed, and where
    each output came from. */
module PipelineProvenance {
  import opened Prelude
  import opened Json
  import opened Ordering
  import opened PipelineRecords
  import opened TaskResults
  import opened RunResults
  import opened PipelineRun
  import opened PipelineSafety
  import opened PipelineOutcome
  import JobProtocol
  import JobRunner

  // ---- rows between task runs ----

  /** The row's buckets are its raw result, normalized by the task's outputs. */
  predicate Recorded(def: TaskDef, row: TaskRow) {
    row.result.Some? && Normalize(row.result.value.buckets.raw, def.outputs) == Ok(row.result.value.buckets)
  }

  /** A succeeded row passed its gate and a blocked row did not; a skipped row has empty
      buckets; a failed one may keep the result of an earlier attempt; and no other row
      has a result. Rows keep the order of their definitions. */
  ghost predicate RowOk(def: TaskDef, row: TaskRow) {
    && row.order == def.order && RowTells(def, row)
    && (row.status.Succeeded? ==> Recorded(def, row) && !Blocks(def.rules, row.result.value.buckets))
    && (row.status.Blocked? ==> Recorded(def, row) && Blocks(def.rules, row.result.value.buckets))
    && (row.status.Skipped? ==>
          row.result.Some? && row.result.value.buckets == NoBuckets(row.result.value.buckets.raw))
    && (row.result.Some? ==>
          || row.status.Skipped? || row.status.Succeeded? || row.status.Blocked?
          || (row.status.Failed? && Recorded(def, row)))
  }

  /** The result names its task and its job, which succeeded. */
  predicate NamesJob(row: TaskRow) {
    && row.result.Some? && row.jobId.Some?
    && row.result.value.taskId == row.id && row.result.value.jobId == row.jobId
    && row.result.value.jobStatus == Some(TaskStatus.Succeeded)
  }

  /** The rest of a row, by its status: a success has no error, a blocked row has the code
      of the first rule that fires, a failed one some other error, a skipped one says why,
      and a pending one has nothing yet. */
  ghost predicate RowTells(def: TaskDef, row: TaskRow) {
    && row.id == def.id && row.dependsOn == def.dependsOn
    && (row.status.Pending? ==> row.result == None && row.jobId == None && row.error == None)
    && (row.status.Succeeded? ==> row.error == None && NamesJob(row))
    && (row.status.Blocked? ==>
          NamesJob(row) && exists i :: FiresFirst(def.rules, i, row.result.value.buckets)
                                       && row.error == Some(QualityBlocked(def.rules[i].code)))
    && (row.status.Failed? ==> row.error.Some? && !row.error.value.QualityBlocked?)
    && (row.status.Skipped? ==>
          row.result.Some? && row.result.value.buckets.raw ==
            map["skipped" := Bool(true), "reason" := Str("optional task params not provided")])
  }

  lemma JobRunTells(def: TaskDef, row: TaskRow, script: TaskScript)
    requires row.id == def.id && row.dependsOn == def.dependsOn && row.jobId.Some?
    ensures
      var writes := JobRun(def, row, script).0;
      writes != [] && RowTells(def, writes[|writes| - 1])
  {
    hide Normalize, FirstFiring, FiresFirst, JobRunner.Outcome;
    if JobRunner.Outcome(script.job).Some? {
      var raw := JobRunner.Outcome(script.job).value;
      if Normalize(raw, def.outputs).Ok? {
        var b := Normalize(raw, def.outputs).value;
        FirstFiringIsFirst(def.rules, b);
        if FirstFiring(def.rules, b).Some? {
          var i :| FiresFirst(def.rules, i, b);
          FiresFirstIsThere(def.rules, i, b);
        }
      }
    }
  }

  lemma TaskLeavesRowTells(def: TaskDef, s: Snapshot, script: TaskScript)
    requires RowTells(def, RowOf(s, def))
    ensures RowTells(def, RowOf(AfterAll(s, def.id, TaskRun(def, s, script)), def))
  {
    hide JobRun, FiresFirst, ShouldSkip, DependenciesReady;
    JobRunTells(def, StartedRow(RowOf(s, def)).(jobId := Some(|s.jobs|)), script);
  }

  lemma FiresFirstIsThere(rules: seq<QualityRule>, i: int, b: Buckets)
    requires FiresFirst(rules, i, b)
    ensures 0 <= i < |rules|
  {
  }

  lemma NormalizeKeepsRaw(raw: Dict, specs: seq<OutputSpec>)
    ensures Normalize(raw, specs).Ok? ==> Normalize(raw, specs).value.raw == raw
  {
  }

  lemma JobRunOk(def: TaskDef, row: TaskRow, script: TaskScript)
    requires row.order == def.order && row.id == def.id && row.dependsOn == def.dependsOn && row.jobId.Some?
    requires row.result.Some? ==> Recorded(def, row)
    ensures
      var writes := JobRun(def, row, script).0;
      writes != [] && RowOk(def, writes[|writes| - 1])
  {
    hide Normalize, FirstFiring, Blocks, JobRunner.Outcome, RowTells;
    JobRunTells(def, row, script);
    if JobRunner.Outcome(script.job).Some? {
      NormalizeKeepsRaw(JobRunner.Outcome(script.job).value, def.outputs);
    }
  }

  lemma TellsOwn(def: TaskDef, row: TaskRow)
    requires RowTells(def, row)
    ensures row.id == def.id && row.dependsOn == def.dependsOn
  {
  }

  lemma TaskLeavesRowOk(def: TaskDef, s: Snapshot, script: TaskScript)
    requires RowOk(def, RowOf(s, def))
    ensures RowOk(def, RowOf(AfterAll(s, def.id, TaskRun(def, s, script)), def))
  {
    hide JobRun, Normalize, Blocks, ShouldSkip, DependenciesReady, RowTells;
    var row := RowOf(s, def);
    TellsOwn(def, row);
    TaskLeavesRowTells(def, s, script);
    if !row.status.Succeeded? && !row.status.Skipped? {
      JobRunOk(def, StartedRow(row).(jobId := Some(|s.jobs|)), script);
    }
  }

  /** The gate runs on a success that is already committed: before a task is left
      blocked, a commit shows it succeeded with the very result the gate refuses. */
  lemma GateRunsAfterCommit(def: TaskDef, s: Snapshot, script: TaskScript)
    requires TaskRun(def, s, script).outcome.Blocked?
    ensures
      var t := TaskRun(def, s, script);
      var n := |t.writes|;
      && n >= 2 && t.writes[n - 1].status.Blocked? && t.writes[n - 2].status.Succeeded?
      && t.writes[n - 1].result == t.writes[n - 2].result
      && Recorded(def, t.writes[n - 2]) && Blocks(def.rules, t.writes[n - 2].result.value.buckets)
  {
    hide Normalize, FirstFiring, Blocks, JobRunner.Outcome, ShouldSkip, DependenciesReady;
    if JobRunner.Outcome(script.job).Some? {
      NormalizeKeepsRaw(JobRunner.Outcome(script.job).value, def.outputs);
    }
  }

  /** A recorded success that its own gate refuses. */
  predicate Refused(def: TaskDef, row: TaskRow) {
    row.status.Succeeded? && row.result.Some? && Blocks(def.rules, row.result.value.buckets)
  }

  /** Among the writes of a task run a refused success is exactly one that the next
      write blocks. */
  lemma RefusedWrites(def: TaskDef, s: Snapshot, script: TaskScript, i: nat)
    requires i < |TaskRun(def, s, script).writes|
    ensures
      var writes := TaskRun(def, s, script).writes;
      Refused(def, writes[i]) <==>
        i + 1 < |writes| && writes[i].status.Succeeded? && writes[i + 1].status.Blocked?
  {
    hide Normalize, FirstFiring, Blocks, JobRunner.Outcome, ShouldSkip, DependenciesReady;
  }

  /** A task run is blocked exactly when it commits a refused success. */
  lemma BlockedIffRefused(def: TaskDef, s: Snapshot, script: TaskScript)
    ensures
      var t := TaskRun(def, s, script);
      t.outcome.Blocked? <==> exists i :: 0 <= i < |t.writes| && Refused(def, t.writes[i])
  {
    hide TaskRun, Refused;
    var t := TaskRun(def, s, script);
    BlockedEndsWrites(def, s, script);
    if t.outcome.Blocked? {
      RefusedWrites(def, s, script, |t.writes| - 2);
    }
    if i: nat :| i < |t.writes| && Refused(def, t.writes[i]) {
      RefusedWrites(def, s, script, i);
      assert t.writes[i + 1].status.Blocked?;
    }
  }

  lemma BlockedEndsWrites(def: TaskDef, s: Snapshot, script: TaskScript)
    ensures
      var t := TaskRun(def, s, script);
      var n := |t.writes|;
      && (t.outcome.Blocked? ==>
            n >= 2 && t.writes[n - 2].status.Succeeded? && t.writes[n - 1].status.Blocked?)
      && (forall i | 0 <= i < n && t.writes[i].status.Blocked? :: t.outcome.Blocked?)
  {
    hide Normalize, FirstFiring, Blocks, JobRunner.Outcome, ShouldSkip, DependenciesReady;
  }

  ghost predicate OneDefPerId(all: seq<TaskDef>) {
    forall d, e | d in all && e in all && d.id == e.id :: d == e
  }

  ghost predicate RowsOk(all: seq<TaskDef>, s: Snapshot) {
    forall d | d in all && d.id in s.tasks :: RowOk(d, s.tasks[d.id])
  }

  lemma TaskLeavesRowsOk(all: seq<TaskDef>, def: TaskDef, s: Snapshot, script: TaskScript)
    requires OneDefPerId(all) && def in all && RowsOk(all, s)
    ensures RowsOk(all, AfterAll(s, def.id, TaskRun(def, s, script)))
  {
    hide TaskRun, RowOk;
    var t := TaskRun(def, s, script);
    FreshRowOk(def, map[]);
    TaskLeavesRowOk(def, s, script);
    OneRowChanges(s, def.id, t, |t.writes|);
    var e := AfterAll(s, def.id, t);
    forall d | d in all && d.id in e.tasks
      ensures RowOk(d, e.tasks[d.id])
    {
      if d.id != def.id {
        assert SameRow(s, e, d.id);
      }
    }
  }

  lemma FreshRowOk(def: TaskDef, params: Dict)
    ensures RowOk(def, FreshRow(def, params))
  {
  }

  lemma {:induction false} LoopLeavesRowsOk(all: seq<TaskDef>, defs: seq<TaskDef>, s: Snapshot, scripts: Scripts)
    requires OneDefPerId(all) && RowsOk(all, s) && forall d | d in defs :: d in all
    ensures RowsOk(all, LastOf(s, Loop(defs, s, scripts).commits))
  {
    hide TaskRun, RowsOk, After, OneDefPerId;
    if defs != [] {
      var first, mid := LoopStep(defs, s, scripts);
      TaskLeavesRowsOk(all, defs[0], s, scripts(defs[0].id));
      if !Stops(first.outcome) {
        LoopLeavesRowsOk(all, defs[1..], mid, scripts);
      }
    }
  }

  // ---- where an output comes from ----

  /** `v` is what one of the task's declared refs resolves to in its recorded raw
      result, under the ref's key. */
  ghost predicate OutputFrom(def: TaskDef, row: TaskRow, key: string, v: Value) {
    && Recorded(def, row) && !v.Null?
    && key in row.result.value.buckets.refs && row.result.value.buckets.refs[key] == v
    && exists i :: 0 <= i < |def.outputs|
                   && Feeds(row.result.value.buckets.raw, def.outputs[i], Ref, key)
                   && v == Resolved(row.result.value.buckets.raw, def.outputs[i])
  }

  ghost predicate Sourced(all: seq<TaskDef>, s: Snapshot, outputs: Dict) {
    forall key | key in outputs ::
      exists d :: d in all && d.id in s.tasks && OutputFrom(d, s.tasks[d.id], key, outputs[key])
  }

  lemma {:induction false} LastFeed(raw: Dict, specs: seq<OutputSpec>, kind: OutputKind, key: string) returns (i: nat)
    requires exists j :: 0 <= j < |specs| && Feeds(raw, specs[j], kind, key)
    ensures i < |specs| && Feeds(raw, specs[i], kind, key)
    ensures forall j | i < j < |specs| :: !Feeds(raw, specs[j], kind, key)
  {
    hide Feeds;
    var front, last := specs[..|specs| - 1], specs[|specs| - 1];
    if Feeds(raw, last, kind, key) {
      i := |front|;
    } else {
      var j :| 0 <= j < |specs| && Feeds(raw, specs[j], kind, key);
      assert front[j] == specs[j];
      i := LastFeed(raw, front, kind, key);
    }
  }

  lemma RefHasASpec(def: TaskDef, row: TaskRow, key: string)
    requires RowOk(def, row) && key in OutputsOf(row)
    ensures OutputFrom(def, row, key, OutputsOf(row)[key])
  {
    hide Bucket, FirstLacking, Feeds, Blocks, Resolved;
    var b := row.result.value.buckets;
    assert key in b.refs;
    BucketHoldsLastFeed(b.raw, def.outputs, Ref, key);
    var i := LastFeed(b.raw, def.outputs, Ref, key);
  }

  lemma {:induction false} RowsOfMember(ordered: seq<TaskDef>, tasks: map<string, TaskRow>, i: nat) returns (d: TaskDef)
    requires i < |RowsOf(ordered, tasks)|
    ensures d in ordered && d.id in tasks && RowsOf(ordered, tasks)[i] == tasks[d.id]
  {
    if ordered[0].id in tasks && i == 0 {
      d := ordered[0];
    } else {
      d := RowsOfMember(ordered[1..], tasks, if ordered[0].id in tasks then i - 1 else i);
    }
  }

  lemma FinishedIsSourced(all: seq<TaskDef>, ordered: seq<TaskDef>, s: Snapshot, status: RunStatus)
    requires RowsOk(all, s) && forall d | d in ordered :: d in all
    ensures Sourced(all, s, BuiltResult(Listed(ordered, s.tasks), status).outputs)
  {
    hide BuiltResult, RowOk, OutputFrom, TopHolder;
    var rows := Listed(ordered, s.tasks);
    var outputs := BuiltResult(rows, status).outputs;
    forall key | key in outputs
      ensures exists d :: d in all && d.id in s.tasks && OutputFrom(d, s.tasks[d.id], key, outputs[key])
    {
      var i := EveryOutputHasASource(rows, status, key);
      TopHolderHolds(rows, key, i);
      var d := RowsOfMember(ordered, s.tasks, i);
      RefHasASpec(d, rows[i], key);
    }
  }

  lemma TopHolderHolds(rows: seq<TaskRow>, key: string, i: nat)
    requires TopHolder(rows, OrderOf, OutputsOf, key, i)
    ensures i < |rows| && key in OutputsOf(rows[i])
  {
  }

  // ---- at rest, after any number of runs ----

  ghost predicate AtRest(all: seq<TaskDef>, s: Snapshot) {
    && RowsOk(all, s)
    && (s.run.result.Some? ==> Sourced(all, s, s.run.result.value.outputs) && BuiltFromRows(all, s))
  }

  /** The stored result is the one that the stored rows give. */
  ghost predicate BuiltFromRows(all: seq<TaskDef>, s: Snapshot)
    requires s.run.result.Some?
  {
    var r := s.run.result.value;
    r == BuiltResult(Listed(InOrder(all), s.tasks), r.summary.status)
  }

  lemma BuiltSaysStatus(rows: seq<TaskRow>, status: RunStatus)
    ensures BuiltResult(rows, status).summary.status == status
  {
  }

  lemma OpLeavesAtRest(defs: seq<TaskDef>, s: Snapshot, op: Op)
    requires OneDefPerId(defs) && AtRest(defs, s)
    ensures AtRest(defs, LastOf(s, OpCommits(defs, s, op)))
  {
    hide RowOk, OutputFrom, BuiltResult, Listed, Loop, InOrder;
    if op.Execute? && Startable(s.run.status) {
      var ordered := InOrder(defs);
      var t := Loop(ordered, Started(s), op.scripts);
      var e := LastOf(Started(s), t.commits);
      OrderKeepsMembers(defs);
      LoopLeavesRowsOk(defs, ordered, Started(s), op.scripts);
      FinishedIsSourced(defs, ordered, e, FinalStatus(t.stop));
      BuiltSaysStatus(Listed(ordered, e.tasks), FinalStatus(t.stop));
      assert LastOf(s, OpCommits(defs, s, op)) == Finished(e, ordered, t.stop);
    }
  }

  lemma OrderKeepsMembers(defs: seq<TaskDef>)
    ensures forall d :: d in InOrder(defs) <==> d in defs
  {
    SortByMembers(defs, RankOf);
  }

  lemma {:induction false} HistoryLeavesAtRest(defs: seq<TaskDef>, s: Snapshot, ops: seq<Op>)
    requires OneDefPerId(defs) && AtRest(defs, s)
    ensures AtRest(defs, LastOf(s, History(defs, s, ops)))
    decreases |ops|
  {
    hide AtRest, OpCommits, OneDefPerId;
    if |ops| > 0 {
      var first := OpCommits(defs, s, ops[0]);
      OpLeavesAtRest(defs, s, ops[0]);
      HistoryLeavesAtRest(defs, LastOf(s, first), ops[1..]);
      LastOfAppend(s, first, History(defs, LastOf(s, first), ops[1..]));
    }
  }

  /** However often a created run is executed and queued: every succeeded task passed
      its gate on its recorded result, every blocked one failed it, and every output
      of the run resolves a declared ref of a task in its recorded raw result. */
  lemma ResultsHaveProvenance(defs: seq<TaskDef>, params: Dict, ops: seq<Op>)
    requires DistinctIds(defs)
    ensures AtRest(defs, LastOf(Created(defs, params), History(defs, Created(defs, params), ops)))
  {
    hide RowOk, OutputFrom, OpCommits;
    OneDefPerIdHolds(defs);
    CreatedRowsOk(defs, params);
    HistoryLeavesAtRest(defs, Created(defs, params), ops);
  }

  /** Where outputs come from: from succeeded tasks and, if the run has not succeeded,
      perhaps from the one task that stopped it, blocked with the result its gate refused
      or failed with the result of an earlier attempt. */
  lemma OutputsComeFrom(defs: seq<TaskDef>, params: Dict, ops: seq<Op>, key: string) returns (d: TaskDef, n: nat)
    requires DistinctIds(defs)
    requires
      var s := LastOf(Created(defs, params), History(defs, Created(defs, params), ops));
      s.run.result.Some? && key in s.run.result.value.outputs
    ensures
      var s := LastOf(Created(defs, params), History(defs, Created(defs, params), ops));
      && ShapeAt(InOrder(defs), s, n)
      && d in defs && d.id in s.tasks && OutputFrom(d, s.tasks[d.id], key, s.run.result.value.outputs[key])
      && (s.run.status.Succeeded? ==> s.tasks[d.id].status.Succeeded?)
      && (!s.tasks[d.id].status.Succeeded? ==>
            && n < |InOrder(defs)| && InOrder(defs)[n] == d
            && (s.tasks[d.id].status.Blocked? || s.tasks[d.id].status.Failed?))
  {
    hide OutputFrom, OpCommits, History, RowOk, InOrder, BuiltResult, DistinctIds, HasId, KeepsDependencies, FreshRow;
    var created := Created(defs, params);
    var s := LastOf(created, History(defs, created, ops));
    ResultsHaveProvenance(defs, params, ops);
    CreatedShape(defs, params);
    n := HistoryReshapes(defs, created, ops, 0);
    d :| d in defs && d.id in s.tasks && OutputFrom(d, s.tasks[d.id], key, s.run.result.value.outputs[key]);
    OrderKeepsMembers(defs);
    var i :| 0 <= i < |InOrder(defs)| && InOrder(defs)[i] == d;
    SourceIsDone(d, s.tasks[d.id], s.run.params, key, s.run.result.value.outputs[key]);
    assert i > n ==> IsFresh(InOrder(defs)[i], s);
    assert i <= n;
  }

  // ---- every published value, traced to a spec ----

  /** One of the task's declared outputs of that kind puts `v` under `key`, read from the
      recorded raw result. */
  ghost predicate PutBy(def: TaskDef, row: TaskRow, kind: OutputKind, key: string, v: Value) {
    && row.result.Some?
    && exists i :: 0 <= i < |def.outputs| && Puts(row.result.value.buckets.raw, def.outputs[i], kind, key, v)
  }

  /** Some task of the run puts it there. */
  ghost predicate Traced(all: seq<TaskDef>, s: Snapshot, kind: OutputKind, key: string, v: Value) {
    exists d :: d in all && d.id in s.tasks && PutBy(d, s.tasks[d.id], kind, key, v)
  }

  /** Outputs, metrics and artifacts all come from declared outputs of their own kind. */
  ghost predicate TracedResult(all: seq<TaskDef>, s: Snapshot, r: RunResult) {
    && (forall key | key in r.outputs :: Traced(all, s, Ref, key, r.outputs[key]))
    && (forall key | key in r.metrics :: Traced(all, s, Metric, key, r.metrics[key]))
    && (forall key | key in r.artifacts :: Traced(all, s, Artifact, key, Str(r.artifacts[key])))
  }

  lemma {:induction false} LastPut(raw: Dict, specs: seq<OutputSpec>, kind: OutputKind, key: string)
    returns (i: int, v: Value)
    requires exists j, w :: 0 <= j < |specs| && Puts(raw, specs[j], kind, key, w)
    ensures PutsLast(raw, specs, kind, i, key, v)
  {
    hide Puts;
    var n := |specs| - 1;
    if w :| Puts(raw, specs[n], kind, key, w) {
      i, v := n, w;
    } else {
      var j, w :| 0 <= j < |specs| && Puts(raw, specs[j], kind, key, w);
      assert Puts(raw, specs[..n][j], kind, key, w);
      i, v := LastPut(raw, specs[..n], kind, key);
      assert specs[..n][i] == specs[i];
      assert forall j | i < j < n :: specs[..n][j] == specs[j];
    }
  }

  lemma KeyIsPut(raw: Dict, specs: seq<OutputSpec>, kind: OutputKind, bucket: Dict, key: string)
    requires BucketTells(raw, specs, kind, bucket) && key in bucket
    ensures exists i :: 0 <= i < |specs| && Puts(raw, specs[i], kind, key, bucket[key])
  {
    hide Puts;
    var i, v := LastPut(raw, specs, kind, key);
  }

  lemma BucketsArePut(def: TaskDef, row: TaskRow)
    requires RowOk(def, row)
    ensures forall key | HoldsRef(row, key) :: PutBy(def, row, Ref, key, row.result.value.buckets.refs[key])
    ensures forall key | HoldsMetric(row, key) ::
      PutBy(def, row, Metric, key, row.result.value.buckets.metrics[key])
    ensures forall key | HoldsArtifact(row, key) ::
      PutBy(def, row, Artifact, key, row.result.value.buckets.artifacts[key])
  {
    hide Normalize, Puts, Blocks, BucketTells, RowTells;
    if row.result.Some? && !row.status.Skipped? {
      var b := row.result.value.buckets;
      NormalizedBuckets(b.raw, def.outputs);
      forall key | key in b.refs
        ensures PutBy(def, row, Ref, key, b.refs[key])
      {
        KeyIsPut(b.raw, def.outputs, Ref, b.refs, key);
      }
      forall key | key in b.metrics
        ensures PutBy(def, row, Metric, key, b.metrics[key])
      {
        KeyIsPut(b.raw, def.outputs, Metric, b.metrics, key);
      }
      forall key | key in b.artifacts
        ensures PutBy(def, row, Artifact, key, b.artifacts[key])
      {
        KeyIsPut(b.raw, def.outputs, Artifact, b.artifacts, key);
      }
    }
  }

  lemma TopHolds(rows: seq<TaskRow>, holds: (TaskRow, string) -> bool, key: string, i: int)
    requires IsTop(rows, holds, key, i)
    ensures 0 <= i < |rows| && holds(rows[i], key)
  {
  }

  lemma BuiltIsTraced(all: seq<TaskDef>, ordered: seq<TaskDef>, s: Snapshot, status: RunStatus)
    requires RowsOk(all, s) && forall d | d in ordered :: d in all
    ensures TracedResult(all, s, BuiltResult(Listed(ordered, s.tasks), status))
  {
    hide BuiltResult, RowOk, PutBy, IsTop, HoldsRef, HoldsMetric, HoldsArtifact;
    var rows := Listed(ordered, s.tasks);
    var r := BuiltResult(rows, status);
    forall i: nat | i < |rows|
      ensures exists d :: d in all && d.id in s.tasks && rows[i] == s.tasks[d.id] && RowOk(d, rows[i])
    {
      var d := RowsOfMember(ordered, s.tasks, i);
    }
    forall key | key in r.outputs
      ensures Traced(all, s, Ref, key, r.outputs[key])
    {
      OutputsIff(rows, status, key);
      var i :| IsTop(rows, HoldsRef, key, i);
      TopHolds(rows, HoldsRef, key, i);
      var d :| d in all && d.id in s.tasks && rows[i] == s.tasks[d.id] && RowOk(d, rows[i]);
      BucketsArePut(d, rows[i]);
    }
    forall key | key in r.metrics
      ensures Traced(all, s, Metric, key, r.metrics[key])
    {
      MetricsIff(rows, status, key);
      var i :| IsTop(rows, HoldsMetric, key, i);
      TopHolds(rows, HoldsMetric, key, i);
      var d :| d in all && d.id in s.tasks && rows[i] == s.tasks[d.id] && RowOk(d, rows[i]);
      BucketsArePut(d, rows[i]);
    }
    forall key | key in r.artifacts
      ensures Traced(all, s, Artifact, key, Str(r.artifacts[key]))
    {
      ArtifactsIff(rows, status, key);
      var i :| IsTop(rows, HoldsArtifact, key, i);
      TopHolds(rows, HoldsArtifact, key, i);
      var d :| d in all && d.id in s.tasks && rows[i] == s.tasks[d.id] && RowOk(d, rows[i]);
      BucketsArePut(d, rows[i]);
    }
  }

  /** However often a created run is executed and queued, every value its result publishes,
      as an output, a metric or an artifact, is put there by a declared output of that kind
      of some task, from that task's recorded raw result. */
  lemma ResultsAreTraced(defs: seq<TaskDef>, params: Dict, ops: seq<Op>)
    requires DistinctIds(defs)
    ensures
      var s := LastOf(Created(defs, params), History(defs, Created(defs, params), ops));
      s.run.result.Some? ==> TracedResult(defs, s, s.run.result.value)
  {
    hide RowsOk, OpCommits, History, BuiltResult, Listed, InOrder, TracedResult, Sourced;
    var s := LastOf(Created(defs, params), History(defs, Created(defs, params), ops));
    ResultsHaveProvenance(defs, params, ops);
    OrderKeepsMembers(defs);
    if s.run.result.Some? {
      BuiltIsTraced(defs, InOrder(defs), s, s.run.result.value.summary.status);
    }
  }

  // ---- exactly what is published ----

  lemma {:induction false} RowsOfAll(ordered: seq<TaskDef>, tasks: map<string, TaskRow>)
    requires forall i | 0 <= i < |ordered| :: ordered[i].id in tasks
    ensures |RowsOf(ordered, tasks)| == |ordered|
    ensures forall i | 0 <= i < |ordered| :: RowsOf(ordered, tasks)[i] == tasks[ordered[i].id]
  {
    if ordered != [] {
      assert forall i | 0 <= i < |ordered| - 1 :: ordered[1..][i] == ordered[i + 1];
      RowsOfAll(ordered[1..], tasks);
    }
  }

  lemma QuietRows(def: TaskDef, row: TaskRow, params: Dict)
    ensures OutputsOf(FreshRow(def, params)) == map[]
    ensures RowOk(def, row) && row.status.Skipped? ==> OutputsOf(row) == map[]
  {
  }

  /** The listed rows of a shape: those before `n` publish only as succeeded ones, those
      behind it publish nothing, and the orders ascend. */
  ghost predicate ListedShape(rows: seq<TaskRow>, n: nat) {
    && (forall i | 0 <= i < |rows| && i < n && OutputsOf(rows[i]) != map[] :: rows[i].status.Succeeded?)
    && (forall i | n < i < |rows| :: OutputsOf(rows[i]) == map[])
    && (n < |rows| ==> !rows[n].status.Succeeded?)
    && (forall i, j | 0 <= i < j < |rows| :: rows[i].order <= rows[j].order)
  }

  lemma ShapeIsListed(defs: seq<TaskDef>, s: Snapshot, n: nat)
    requires RowsOk(defs, s) && ShapeAt(InOrder(defs), s, n)
    ensures
      var ordered := InOrder(defs);
      var rows := Listed(ordered, s.tasks);
      && |rows| == (if |ordered| <= 100 then |ordered| else 100)
      && (forall i | 0 <= i < |rows| :: ordered[i].id in s.tasks && rows[i] == s.tasks[ordered[i].id])
      && ListedShape(rows, n)
  {
    hide InOrder, HasId, FreshRow, RowOk, OutputsOf;
    var ordered := InOrder(defs);
    OrderKeepsMembers(defs);
    OrderAscends(defs);
    assert forall i | 0 <= i < |ordered| :: KeepsDependencies(ordered[i], s);
    RowsOfAll(ordered, s.tasks);
    var rows := Listed(ordered, s.tasks);
    forall i | 0 <= i < |rows|
      ensures rows[i] == s.tasks[ordered[i].id] && rows[i].order == ordered[i].order
      ensures i < n && OutputsOf(rows[i]) != map[] ==> rows[i].status.Succeeded?
      ensures i > n ==> OutputsOf(rows[i]) == map[]
      ensures i == n ==> !rows[i].status.Succeeded?
    {
      assert ordered[i] in defs;
      RowKeepsOrder(ordered[i], rows[i]);
      QuietRows(ordered[i], rows[i], s.run.params);
      assert i < n ==> Settled(s, ordered[i].id);
      assert i > n ==> IsFresh(ordered[i], s);
      FreshIsPending(ordered[i], s.run.params);
    }
    assert forall i, j | 0 <= i < j < |rows| :: RankOf(ordered[i]) <= RankOf(ordered[j]);
  }

  lemma OrderAscends(defs: seq<TaskDef>)
    ensures Sorted(InOrder(defs), RankOf)
  {
    SortBySorts(defs, RankOf);
  }

  lemma RowKeepsOrder(def: TaskDef, row: TaskRow)
    requires RowOk(def, row)
    ensures row.order == def.order
  {
  }

  lemma FreshIsPending(def: TaskDef, params: Dict)
    ensures FreshRow(def, params).status.Pending?
  {
  }

  /** Every published value comes from a succeeded task. */
  ghost predicate OnlySuccessesPublish(rows: seq<TaskRow>) {
    forall key: string, i: nat | TopHolder(rows, OrderOf, OutputsOf, key, i) :: rows[i].status.Succeeded?
  }

  /** The row at `n` publishes whatever it holds. */
  lemma LastHolderIsTop(rows: seq<TaskRow>, n: nat, key: string)
    requires ListedShape(rows, n) && n < |rows| && key in OutputsOf(rows[n])
    ensures TopHolder(rows, OrderOf, OutputsOf, key, n)
  {
    hide OutputsOf;
  }

  lemma ListedPublishIff(rows: seq<TaskRow>, n: nat)
    requires ListedShape(rows, n)
    ensures OnlySuccessesPublish(rows) <==> n >= |rows| || OutputsOf(rows[n]) == map[]
  {
    hide OutputsOf;
    if n < |rows| && OutputsOf(rows[n]) != map[] {
      var key :| key in OutputsOf(rows[n]);
      LastHolderIsTop(rows, n, key);
    } else {
      forall key: string, i: nat | TopHolder(rows, OrderOf, OutputsOf, key, i)
        ensures rows[i].status.Succeeded?
      {
        assert OutputsOf(rows[i]) != map[];
      }
    }
  }

  /** However often a created run is executed and queued: its stored result is the one
      its rows give, and every value published comes from a succeeded task exactly when
      no task stopped the run, or the one that did is beyond the rows listed or holds no
      refs. */
  lemma OnlySuccessesPublishIff(defs: seq<TaskDef>, params: Dict, ops: seq<Op>) returns (n: nat)
    requires DistinctIds(defs)
    ensures
      var s := LastOf(Created(defs, params), History(defs, Created(defs, params), ops));
      var ordered := InOrder(defs);
      var rows := Listed(ordered, s.tasks);
      && ShapeAt(ordered, s, n)
      && (s.run.result.Some? ==> s.run.result.value == BuiltResult(rows, s.run.result.value.summary.status))
      && (n < |ordered| ==> ordered[n].id in s.tasks)
      && (OnlySuccessesPublish(rows) <==>
            n == |ordered| || n >= 100 || OutputsOf(s.tasks[ordered[n].id]) == map[])
  {
    hide OpCommits, History, RowsOk, InOrder, BuiltResult, DistinctIds, OutputsOf, Listed, Sourced;
    hide OnlySuccessesPublish, ListedShape;
    var created := Created(defs, params);
    var s := LastOf(created, History(defs, created, ops));
    ResultsHaveProvenance(defs, params, ops);
    n := EveryHistoryHasTheShape(defs, params, ops);
    ShapeIsListed(defs, s, n);
    ListedPublishIff(Listed(InOrder(defs), s.tasks), n);
  }

  /** And key by key: what the stopping task holds is published, refused or stale as it
      may be; any other value comes from a succeeded task. */
  lemma PublishedFrom(defs: seq<TaskDef>, params: Dict, ops: seq<Op>, key: string) returns (n: nat)
    requires DistinctIds(defs)
    requires LastOf(Created(defs, params), History(defs, Created(defs, params), ops)).run.result.Some?
    ensures
      var s := LastOf(Created(defs, params), History(defs, Created(defs, params), ops));
      var rows, outputs := Listed(InOrder(defs), s.tasks), s.run.result.value.outputs;
      && ShapeAt(InOrder(defs), s, n)
      && if n < |rows| && key in OutputsOf(rows[n]) then
           !rows[n].status.Succeeded? && key in outputs && outputs[key] == OutputsOf(rows[n])[key]
         else
           key in outputs ==>
             exists i: nat :: i < n && TopHolder(rows, OrderOf, OutputsOf, key, i)
                              && rows[i].status.Succeeded? && outputs[key] == OutputsOf(rows[i])[key]
  {
    hide OpCommits, History, RowsOk, InOrder, BuiltResult, DistinctIds, OutputsOf, Listed, Sourced, ShapeAt;
    n := OnlySuccessesPublishIff(defs, params, ops);
    var s := LastOf(Created(defs, params), History(defs, Created(defs, params), ops));
    var rows, outputs := Listed(InOrder(defs), s.tasks), s.run.result.value.outputs;
    ResultsHaveProvenance(defs, params, ops);
    ShapeIsListed(defs, s, n);
    var status := s.run.result.value.summary.status;
    if n < |rows| && key in OutputsOf(rows[n]) {
      LastHolderIsTop(rows, n, key);
      HighestOrderWins(rows, status, key, n);
    } else if key in outputs {
      var i := EveryOutputHasASource(rows, status, key);
      assert OutputsOf(rows[i]) != map[];
    }
  }

  // ---- a guarded value: refused or not, it is published ----

  /** One task that delivers one ref, and one rule that guards it. */
  function GuardedTask(ruleType: RuleType, expected: Value): TaskDef {
    TaskDef("t", "t", 0, "job", [], map[], false, [],
            [OutputSpec("x", Ref, "x", None, false, Null)],
            [GuardRule(ruleType, expected)])
  }

  function GuardRule(ruleType: RuleType, expected: Value): QualityRule {
    QualityRule(ruleType, "refs" + "." + "x", expected, "code")
  }

  function Delivering(v: Value): TaskScript {
    TaskScript(true, true, [], JobRunner.Environment(
      JobProtocol.NoFault, true, JobProtocol.NoFault, true, true, Some(map["x" := v]),
      JobProtocol.NoFault, true, JobProtocol.NoFault))
  }

  lemma GuardedBuckets(v: Value, specs: seq<OutputSpec>)
    requires !v.Null? && specs == GuardedTask(BlockIfTrue, Null).outputs
    ensures Normalize(map["x" := v], specs).Ok?
    ensures Normalize(map["x" := v], specs).value.refs == map["x" := v]
  {
    var raw: Dict := map["x" := v];
    ReadKey(raw, "x");
    assert specs[1..] == [] && FirstLacking(raw, []) == None;
    assert FirstLacking(raw, specs) == FirstLacking(raw, specs[1..]);
    hide ReadPath;
    EmptyBucket(raw, specs, Ref);
    BucketStep(raw, specs, 0, Ref);
    assert specs[..1] == specs;
  }

  /** What the guard refuses, in terms of the value alone. */
  ghost predicate Refuses(ruleType: RuleType, expected: Value, v: Value) {
    match ruleType
    case BlockIfTrue =>
      v != Null && v != Bool(false) && v != Num(0.0) && v != Str("") && v != Arr([]) && v != Obj(map[])
    case BlockIfEquals => SameValue(v, expected)
    case BlockIfIn => expected.Arr? && exists item :: item in expected.items && SameValue(v, item)
  }

  lemma GuardFiresIff(ruleType: RuleType, expected: Value, v: Value, b: Buckets)
    requires !v.Null? && b.refs == map["x" := v]
    ensures Blocks([GuardRule(ruleType, expected)], b) <==> Refuses(ruleType, expected, v)
  {
    hide ReadPath, Truthy, View, SameValue;
    var rule := GuardRule(ruleType, expected);
    GateReadsBucket(b, "x");
    ReadKey(b.refs, "x");
    assert ReadPath(View(b), rule.source) == v;
    FalseValues(v);
    if ruleType.BlockIfIn? && expected.Arr? {
      if item :| item in expected.items && SameValue(v, item) {
        var i :| 0 <= i < |expected.items| && expected.items[i] == item;
        assert SameValue(v, expected.items[i]);
      }
    }
    assert Blocks([rule], b) <==> RuleFires(rule, b) by {
      if RuleFires(rule, b) {
        assert RuleFires([rule][0], b);
      }
    }
  }

  lemma GuardedRun(ruleType: RuleType, expected: Value, v: Value, s: Snapshot)
    requires !v.Null? && "t" in s.tasks
    requires s.tasks["t"] == FreshRow(GuardedTask(ruleType, expected), s.run.params)
    ensures
      var t := TaskRun(GuardedTask(ruleType, expected), s, Delivering(v));
      && (t.outcome.Blocked? <==> Refuses(ruleType, expected, v))
      && (t.outcome.Succeeded? <==> !Refuses(ruleType, expected, v))
      && t.writes != [] && OutputsOf(t.writes[|t.writes| - 1]) == map["x" := v]
  {
    hide Normalize, FirstFiring, Blocks, Refuses;
    var raw: Dict, def := map["x" := v], GuardedTask(ruleType, expected);
    GuardedBuckets(v, def.outputs);
    GuardFiresIff(ruleType, expected, v, Normalize(raw, def.outputs).value);
    assert JobRunner.Outcome(Delivering(v).job) == Some(raw);
    assert Kept(raw, Present) == raw;
  }

  /** A guarded value stops the run exactly when its rule refuses it: under a truth rule
      when it counts as true, under an equality rule when it is the expected one, under a
      list rule when it is in the list. Refused or not, it is published. */
  lemma GuardedRunIsBlockedIff(ruleType: RuleType, expected: Value, v: Value, params: Dict, scripts: Scripts)
    requires v != Null && scripts("t") == Delivering(v)
    ensures
      var def := GuardedTask(ruleType, expected);
      var e := AfterRun([def], Created([def], params), scripts);
      && (e.run.status.Blocked? <==> Refuses(ruleType, expected, v))
      && (e.run.status.Succeeded? <==> !Refuses(ruleType, expected, v))
      && "t" in e.tasks && (e.tasks["t"].status.Blocked? <==> Refuses(ruleType, expected, v))
      && e.run.result.Some? && e.run.result.value.outputs == map["x" := v]
  {
    hide TaskRun, BuiltResult, OutputsOf, Kept, Truthy, GuardedTask, Delivering, Refuses;
    var def := GuardedTask(ruleType, expected);
    var created := Created([def], params);
    GuardedIsT(ruleType, expected);
    SortedIsFixed([def], RankOf);
    assert [def][..0] == [];
    var started := Started(created);
    assert InOrder([def]) == [def] && FreshRows([], params) == map[];
    assert created.tasks == map["t" := FreshRow(def, params)];
    GuardedRun(ruleType, expected, v, started);
    TaskOutcomeShows(def, started, scripts(def.id));
    SoleTaskPublishes(def, created, scripts);
    var first, mid := LoopStep([def], started, scripts);
    EmptyLoop(mid, scripts);
    assert [def][1..] == [];
    OutputsOfSameResult(mid.tasks["t"], mid.tasks["t"]);
  }

  lemma GuardedIsT(ruleType: RuleType, expected: Value)
    ensures GuardedTask(ruleType, expected).id == "t"
  {
  }

  /** It does happen: a run of a single task publishes what the task's row holds, be it
      blocked with a refused result, or failed with the result it had before. */
  lemma SoleTaskPublishes(def: TaskDef, s: Snapshot, scripts: Scripts)
    requires Startable(s.run.status) && def.id in s.tasks
    ensures
      var e := AfterRun([def], s, scripts);
      && def.id in e.tasks && e.run.result.Some?
      && e.run.result.value.outputs == OutputsOf(e.tasks[def.id])
      && (e.run.status.Blocked? ==> e.tasks[def.id].status.Blocked? && e.tasks[def.id].result.Some?)
      && (e.run.status.Failed? ==>
            e.tasks[def.id].status.Failed? && OutputsOf(e.tasks[def.id]) == OutputsOf(s.tasks[def.id]))
  {
    hide TaskRun, BuiltResult, OutputsOf, Kept;
    var started, script := Started(s), scripts(def.id);
    var first, mid := LoopStep([def], started, scripts);
    SortedIsFixed([def], RankOf);
    EmptyLoop(mid, scripts);
    assert [def][1..] == [];
    SoleRun(def, started, script);
    SoleResult(mid.tasks[def.id], FinalStatus(Loop([def], started, scripts).stop));
    assert RowsOf([def], mid.tasks) == [mid.tasks[def.id]];
    OutputsOfSameResult(started.tasks[def.id], mid.tasks[def.id]);
  }

  lemma OutputsOfSameResult(a: TaskRow, b: TaskRow)
    ensures a.result == b.result ==> OutputsOf(a) == OutputsOf(b)
  {
  }

  lemma SoleResult(row: TaskRow, status: RunStatus)
    ensures BuiltResult([row], status).outputs == OutputsOf(row)
  {
    hide Kept, OutputsOf, MetricsOf, ArtifactsOf;
    SortedIsFixed([row], OrderOf);
    EmptyMerge();
    LayersSnoc([], row);
    assert [] + [row] == [row];
    assert map[] + OutputsOf(row) == OutputsOf(row);
  }

  /** What a task run leaves of a row that was there before. */
  lemma SoleRun(def: TaskDef, s: Snapshot, script: TaskScript)
    requires def.id in s.tasks
    ensures
      var t := TaskRun(def, s, script);
      var e := AfterAll(s, def.id, t);
      && def.id in e.tasks
      && (t.outcome.Blocked? ==> e.tasks[def.id].status.Blocked? && e.tasks[def.id].result.Some?)
      && (t.outcome.Raised? ==> e.tasks[def.id].status.Failed? && e.tasks[def.id].result == s.tasks[def.id].result)
  {
    hide Normalize, FirstFiring, Blocks, JobRunner.Outcome, ShouldSkip, DependenciesReady;
  }

  lemma SourceIsDone(d: TaskDef, row: TaskRow, params: Dict, key: string, v: Value)
    requires RowOk(d, row) && OutputFrom(d, row, key, v)
    ensures row.status.Succeeded? || row.status.Blocked? || row.status.Failed?
    ensures row != FreshRow(d, params)
  {
    hide Normalize, Blocks, Feeds, Resolved;
  }

  // ---- the gate, in every commit ----

  ghost predicate BlocksNext(commits: seq<Snapshot>, i: nat, id: string)
    requires i < |commits| && id in commits[i].tasks
  {
    && i + 1 < |commits| && commits[i].tasks[id].status.Succeeded?
    && id in commits[i + 1].tasks && commits[i + 1].tasks[id].status.Blocked?
  }

  /** A commit shows a refused success of a task exactly when the next one blocks it. */
  ghost predicate GateFollows(all: seq<TaskDef>, commits: seq<Snapshot>) {
    forall i: nat, d | i < |commits| && d in all && d.id in commits[i].tasks ::
      Refused(d, commits[i].tasks[d.id]) <==> BlocksNext(commits, i, d.id)
  }

  lemma OkIsNotRefused(all: seq<TaskDef>, s: Snapshot, d: TaskDef)
    requires RowsOk(all, s) && d in all && d.id in s.tasks
    ensures !Refused(d, s.tasks[d.id])
  {
    hide Blocks;
    assert RowOk(d, s.tasks[d.id]);
  }

  lemma GateFollowsTask(all: seq<TaskDef>, def: TaskDef, s: Snapshot, script: TaskScript)
    requires OneDefPerId(all) && def in all && RowsOk(all, s)
    ensures GateFollows(all, Commits(s, def.id, TaskRun(def, s, script)))
  {
    hide TaskRun, Refused, RowsOk;
    var t := TaskRun(def, s, script);
    var commits := Commits(s, def.id, t);
    forall i: nat, d | i < |commits| && d in all && d.id in commits[i].tasks
      ensures Refused(d, commits[i].tasks[d.id]) <==> BlocksNext(commits, i, d.id)
    {
      RefusedWrites(def, s, script, i);
      OneRowChanges(s, def.id, t, i + 1);
      if d.id != def.id {
        assert SameRow(s, commits[i], d.id);
        OkIsNotRefused(all, s, d);
        if i + 1 < |commits| {
          OneRowChanges(s, def.id, t, i + 2);
          assert SameRow(s, commits[i + 1], d.id);
        }
      }
    }
  }

  lemma GateFollowsAppend(all: seq<TaskDef>, s: Snapshot, a: seq<Snapshot>, b: seq<Snapshot>)
    requires GateFollows(all, a) && GateFollows(all, b) && CommitsKeep(LastOf(s, a), b)
    ensures GateFollows(all, a + b)
  {
    hide Refused, NoneRunning, RunningIsReady;
    var c := a + b;
    forall i: nat, d | i < |c| && d in all && d.id in c[i].tasks
      ensures Refused(d, c[i].tasks[d.id]) <==> BlocksNext(c, i, d.id)
    {
      if i + 1 < |a| {
        assert c[i] == a[i] && c[i + 1] == a[i + 1];
        assert BlocksNext(c, i, d.id) <==> BlocksNext(a, i, d.id);
      } else if i < |a| {
        assert c[i] == a[i] == LastOf(s, a) && !BlocksNext(a, i, d.id);
        if i + 1 < |c| && c[i].tasks[d.id].status.Succeeded? {
          assert c[i + 1] == b[0] && Keeps(LastOf(s, a), b[0]);
          assert Settled(LastOf(s, a), d.id) && SameRow(LastOf(s, a), b[0], d.id);
        }
      } else {
        assert c[i] == b[i - |a|] && (i + 1 < |c| ==> c[i + 1] == b[i + 1 - |a|]);
        assert BlocksNext(c, i, d.id) <==> BlocksNext(b, i - |a|, d.id);
      }
    }
  }

  lemma GateFollowsOne(all: seq<TaskDef>, s: Snapshot)
    requires RowsOk(all, s)
    ensures GateFollows(all, [s])
  {
    hide Refused, RowsOk;
    forall d | d in all && d.id in s.tasks {
      OkIsNotRefused(all, s, d);
    }
  }

  lemma {:induction false} GateFollowsLoop(all: seq<TaskDef>, defs: seq<TaskDef>, s: Snapshot, scripts: Scripts)
    requires OneDefPerId(all) && RowsOk(all, s) && forall d | d in defs :: d in all
    ensures GateFollows(all, Loop(defs, s, scripts).commits)
  {
    hide TaskRun, RowsOk, After, OneDefPerId, GateFollows, CommitsKeep;
    if defs == [] {
      NoCommits(all);
    } else {
      var first, mid := LoopStep(defs, s, scripts);
      GateFollowsTask(all, defs[0], s, scripts(defs[0].id));
      TaskLeavesRowsOk(all, defs[0], s, scripts(defs[0].id));
      if !Stops(first.outcome) {
        GateFollowsLoop(all, defs[1..], mid, scripts);
        LastOfCommits(s, defs[0].id, first);
        LoopKeeps(defs[1..], mid, scripts);
        GateFollowsAppend(all, s, Commits(s, defs[0].id, first), Loop(defs[1..], mid, scripts).commits);
      }
    }
  }

  lemma NoCommits(all: seq<TaskDef>)
    ensures GateFollows(all, [])
  {
  }

  lemma GateFollowsOp(defs: seq<TaskDef>, s: Snapshot, op: Op)
    requires OneDefPerId(defs) && RowsOk(defs, s)
    ensures GateFollows(defs, OpCommits(defs, s, op))
  {
    hide RowOk, BuiltResult, Listed, Loop, InOrder, GateFollows, CommitsKeep, OneDefPerId;
    NoCommits(defs);
    match op
    case Queue => GateFollowsOne(defs, s.(run := s.run.(status := RunStatus.Queued)));
    case Execute(scripts) =>
      if Startable(s.run.status) {
        var ordered, started := InOrder(defs), Started(s);
        var t := Loop(ordered, started, scripts);
        var e := LastOf(started, t.commits);
        var finished := Finished(e, ordered, t.stop);
        OrderKeepsMembers(defs);
        GateFollowsOne(defs, started);
        GateFollowsLoop(defs, ordered, started, scripts);
        LoopLeavesRowsOk(defs, ordered, started, scripts);
        GateFollowsOne(defs, finished);
        LoopKeeps(ordered, started, scripts);
        GateFollowsAppend(defs, s, [started], t.commits);
        LastOfAppend(s, [started], t.commits);
        LoopLeavesRun(ordered, started, scripts);
        RunRowChangeKeeps(e, finished.run);
        GateFollowsAppend(defs, s, [started] + t.commits, [finished]);
      }
  }

  lemma {:induction false} GateFollowsHistory(defs: seq<TaskDef>, s: Snapshot, ops: seq<Op>)
    requires OneDefPerId(defs) && AtRest(defs, s)
    ensures GateFollows(defs, History(defs, s, ops))
    decreases |ops|
  {
    hide OpCommits, OneDefPerId, GateFollows, RowsOk, CommitsKeep;
    if |ops| == 0 {
      NoCommits(defs);
    } else {
      var first := OpCommits(defs, s, ops[0]);
      GateFollowsOp(defs, s, ops[0]);
      OpLeavesAtRest(defs, s, ops[0]);
      GateFollowsHistory(defs, LastOf(s, first), ops[1..]);
      HistoryKeeps(defs, LastOf(s, first), ops[1..]);
      GateFollowsAppend(defs, s, first, History(defs, LastOf(s, first), ops[1..]));
    }
  }

  /** However often a created run is executed and queued, a commit shows a success that
      its gate refuses exactly when the very next commit blocks that task. */
  lemma RefusedSuccessIsBlockedNext(defs: seq<TaskDef>, params: Dict, ops: seq<Op>)
    requires DistinctIds(defs)
    ensures GateFollows(defs, History(defs, Created(defs, params), ops))
  {
    hide RowOk, OutputFrom, OpCommits, GateFollows;
    OneDefPerIdHolds(defs);
    CreatedRowsOk(defs, params);
    GateFollowsHistory(defs, Created(defs, params), ops);
  }

  lemma OneDefPerIdHolds(defs: seq<TaskDef>)
    requires DistinctIds(defs)
    ensures OneDefPerId(defs)
  {
    forall d, e | d in defs && e in defs && d.id == e.id
      ensures d == e
    {
      var i :| 0 <= i < |defs| && defs[i] == d;
      var j :| 0 <= j < |defs| && defs[j] == e;
      SameIdSameTask(defs, i, j);
    }
  }

  lemma {:induction false} FreshRowsOk(all: seq<TaskDef>, defs: seq<TaskDef>, params: Dict)
    requires OneDefPerId(all) && forall d | d in defs :: d in all
    ensures forall d | d in all && d.id in FreshRows(defs, params) ::
      FreshRows(defs, params)[d.id] == FreshRow(d, params)
  {
    if defs != [] {
      FreshRowsOk(all, defs[..|defs| - 1], params);
    }
  }

  lemma CreatedRowsOk(defs: seq<TaskDef>, params: Dict)
    requires OneDefPerId(defs)
    ensures RowsOk(defs, Created(defs, params))
  {
    hide RowOk, InOrder, OneDefPerId;
    OrderKeepsMembers(defs);
    FreshRowsOk(defs, InOrder(defs), params);
    forall d {
      FreshRowOk(d, params);
    }
  }
}
