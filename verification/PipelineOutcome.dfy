/** How a run ends, decided by its definition and its environment alone. */
module PipelineOutcome {
  import opened Prelude
  import opened Json
  import opened Ordering
  import opened PipelineRecords
  import opened TaskResults
  import opened RunResults
  import opened PipelineRun
  import opened PipelineSafety
  import JobRunner

  // ---- what decides each task ----

  /** Every dependency of the task at `i` is a task before it. */
  predicate DependenciesBefore(defs: seq<TaskDef>, i: nat)
    requires i < |defs|
  {
    forall d | d in defs[i].dependsOn :: HasId(defs[..i], d)
  }

  /** The task at `i` gets as far as having a job. */
  predicate GetsJob(defs: seq<TaskDef>, i: nat, params: Dict, script: TaskScript)
    requires i < |defs|
  {
    !ShouldSkip(defs[i], params) && DependenciesBefore(defs, i) && script.resolves && script.plans
  }

  /** Its job returns a result that can be normalized. */
  predicate Delivers(def: TaskDef, script: TaskScript) {
    JobRunner.Outcome(script.job).Some? && Normalize(JobRunner.Outcome(script.job).value, def.outputs).Ok?
  }

  predicate GateFires(def: TaskDef, script: TaskScript)
    requires Delivers(def, script)
  {
    Blocks(def.rules, Normalize(JobRunner.Outcome(script.job).value, def.outputs).value)
  }

  predicate Passes(defs: seq<TaskDef>, i: nat, params: Dict, script: TaskScript)
    requires i < |defs|
  {
    || ShouldSkip(defs[i], params)
    || (GetsJob(defs, i, params, script) && Delivers(defs[i], script) && !GateFires(defs[i], script))
  }

  predicate GateStops(defs: seq<TaskDef>, i: nat, params: Dict, script: TaskScript)
    requires i < |defs|
  {
    GetsJob(defs, i, params, script) && Delivers(defs[i], script) && GateFires(defs[i], script)
  }

  /** The tasks from `k` up to `n` that get a job. */
  function JobIds(defs: seq<TaskDef>, k: nat, n: nat, params: Dict, scripts: Scripts): seq<string>
    requires n <= |defs|
    decreases n - k
  {
    if k >= n then []
    else
      (if GetsJob(defs, k, params, scripts(defs[k].id)) then [defs[k].id] else [])
      + JobIds(defs, k + 1, n, params, scripts)
  }

  // ---- what the run's parameters decide ----

  /** The run's parameters say `v` under `key` for this task. */
  predicate SaysFor(params: Dict, def: TaskDef, key: string, v: Value) {
    && def.id in params && params[def.id].Obj?
    && key in params[def.id].fields && params[def.id].fields[key] == v
  }

  /** A task's parameters are its defaults, each replaced where the run says something for
      that task; and nothing the run says for it is lost. */
  lemma OverridesWin(def: TaskDef, params: Dict, key: string, v: Value)
    ensures
      var row := FreshRow(def, params);
      key in row.params && row.params[key] == v <==>
        || SaysFor(params, def, key, v)
        || (key in def.defaultParams && def.defaultParams[key] == v && !exists w :: SaysFor(params, def, key, w))
  {
    if key in Overrides(def, params) {
      assert SaysFor(params, def, key, Overrides(def, params)[key]);
    }
  }

  /** Otherwise a fresh row is its definition's, pending, with nothing recorded. */
  lemma FreshRowTells(def: TaskDef, params: Dict)
    ensures
      var row := FreshRow(def, params);
      && row.id == def.id && row.order == def.order && row.dependsOn == def.dependsOn
      && row.status == TaskStatus.Pending && row.jobId == None && row.result == None && row.error == None
  {
  }

  /** An optional task is skipped exactly when the run gives no parameters under its id,
      its name, its job type or any of its own keys; any other task never. */
  lemma SkippedIffNoParams(def: TaskDef, params: Dict)
    ensures ShouldSkip(def, params) <==>
      def.optional && !exists key ::
        && (key == def.id || key == def.name || key == def.jobType || key in def.paramKeys)
        && key in params && params[key].Obj? && params[key].fields != map[]
  {
    forall key
      ensures key in CandidateKeys(def) <==>
        key == def.id || key == def.name || key == def.jobType || key in def.paramKeys
    {
      assert CandidateKeys(def) == def.paramKeys + [def.id, def.name, def.jobType];
    }
    if ShouldSkip(def, params) {
      forall key | key in CandidateKeys(def)
        ensures !(key in params && params[key].Obj? && params[key].fields != map[])
      {
        assert !GivesParams(params, key);
      }
    }
  }

  /** Why a task that does not pass stops the run: the first thing that went wrong. */
  function StopReason(defs: seq<TaskDef>, i: nat, params: Dict, script: TaskScript): TaskError
    requires i < |defs| && !Passes(defs, i, params, script)
  {
    if !DependenciesBefore(defs, i) then DependencyNotReady
    else if !script.resolves then InputsUnresolved
    else if !script.plans then PlanningFailed
    else
      match JobRunner.Outcome(script.job)
      case None => JobFailed
      case Some(raw) =>
        match Normalize(raw, defs[i].outputs)
        case Err(name) => OutputMissing(name)
        case Ok(b) => QualityBlocked(FirstFiring(defs[i].rules, b).value.code)
  }

  // ---- the loop, from a run that got as far as `k` ----

  /** There, but not settled, and with the dependencies of its definition. */
  predicate Waits(def: TaskDef, s: Snapshot) {
    def.id in s.tasks && !Settled(s, def.id) && s.tasks[def.id].dependsOn == def.dependsOn
  }

  /** The tasks before `k` are settled, the others wait. */
  ghost predicate AtStep(defs: seq<TaskDef>, s: Snapshot, k: nat) {
    && k <= |defs|
    && (forall id :: id in s.tasks <==> HasId(defs, id))
    && (forall i | 0 <= i < k :: Settled(s, defs[i].id))
    && (forall i | k <= i < |defs| :: Waits(defs[i], s))
  }

  lemma SettledBefore(defs: seq<TaskDef>, s: Snapshot, k: nat, id: string)
    requires AtStep(defs, s, k)
    ensures Settled(s, id) <==> HasId(defs[..k], id)
  {
    if HasId(defs[..k], id) {
      var i :| 0 <= i < k && defs[..k][i].id == id;
      assert defs[i].id == id;
    }
    if Settled(s, id) {
      assert HasId(defs, id);
      var i :| 0 <= i < |defs| && defs[i].id == id;
      assert i >= k ==> Waits(defs[i], s);
      assert i < k;
      assert defs[..k][i] == defs[i];
    }
  }

  lemma ReadyIffBefore(defs: seq<TaskDef>, s: Snapshot, k: nat)
    requires AtStep(defs, s, k) && k < |defs|
    ensures defs[k].id in s.tasks
    ensures DependenciesReady(s.tasks[defs[k].id], s) <==> DependenciesBefore(defs, k)
  {
    assert Waits(defs[k], s);
    forall d {
      SettledBefore(defs, s, k, d);
    }
  }

  /** What the run of the next waiting task comes to. */
  lemma FreshTask(defs: seq<TaskDef>, s: Snapshot, k: nat, script: TaskScript)
    requires AtStep(defs, s, k) && k < |defs|
    ensures
      var t := TaskRun(defs[k], s, script);
      var mid := AfterAll(s, defs[k].id, t);
      && (!Stops(t.outcome) <==> Passes(defs, k, s.run.params, script))
      && (t.outcome.Blocked? <==> GateStops(defs, k, s.run.params, script))
      && mid.jobs == s.jobs + (if GetsJob(defs, k, s.run.params, script) then [defs[k].id] else [])
      && (ShouldSkip(defs[k], s.run.params) <==> t.outcome.Skipped?)
      && (t.outcome.Skipped? ==> mid.tasks[defs[k].id].status.Skipped?)
      && (t.outcome.Succeeded? ==> mid.tasks[defs[k].id].status.Succeeded?)
      && !t.outcome.AlreadySucceeded? && !t.outcome.AlreadySkipped?
      && (Stops(t.outcome) ==> t.outcome.error == StopReason(defs, k, s.run.params, script))
  {
    hide Normalize, FirstFiring, Blocks, JobRunner.Outcome, ShouldSkip, DependenciesReady, DependenciesBefore, HasId;
    ReadyIffBefore(defs, s, k);
    assert Waits(defs[k], s) && RowOf(s, defs[k]) == s.tasks[defs[k].id];
  }

  lemma IdIsThere(defs: seq<TaskDef>, k: nat)
    requires k < |defs|
    ensures HasId(defs, defs[k].id)
  {
  }

  lemma NextStep(defs: seq<TaskDef>, s: Snapshot, k: nat, script: TaskScript)
    requires DistinctIds(defs) && AtStep(defs, s, k) && k < |defs|
    requires !Stops(TaskRun(defs[k], s, script).outcome)
    ensures AtStep(defs, AfterAll(s, defs[k].id, TaskRun(defs[k], s, script)), k + 1)
  {
    hide TaskRun, HasId, Settled;
    var t := TaskRun(defs[k], s, script);
    var mid := AfterAll(s, defs[k].id, t);
    TaskOutcomeShows(defs[k], s, script);
    OneRowChanges(s, defs[k].id, t, |t.writes|);
    IdIsThere(defs, k);
    SettledIsThere(mid, defs[k].id);
    forall i | 0 <= i < |defs|
      ensures i != k ==> SameRow(s, mid, defs[i].id)
      ensures i != k ==> (Settled(s, defs[i].id) <==> Settled(mid, defs[i].id))
      ensures i > k ==> Waits(defs[i], mid)
    {
      if i != k {
        assert IdOf(defs[i]) != IdOf(defs[k]);
        SettledBySame(s, mid, defs[i].id);
      }
      if i > k {
        assert Waits(defs[i], s);
      }
    }
    forall id
      ensures id in mid.tasks <==> HasId(defs, id)
    {
      assert id != defs[k].id ==> SameRow(s, mid, id);
    }
  }

  lemma SettledIsThere(s: Snapshot, id: string)
    ensures Settled(s, id) ==> id in s.tasks
  {
  }

  /** What the rest of a run comes to, from the task at `k` on. */
  ghost predicate LoopDecides(defs: seq<TaskDef>, k: nat, s: Snapshot, scripts: Scripts, t: LoopTrace, e: Snapshot)
    requires t.stop.Some? ==> Stops(t.stop.value)
  {
    var n := k + t.done;
    var p := s.run.params;
    && n <= |defs| && (n < |defs| <==> t.stop.Some?)
    && (forall i | k <= i < n :: Passes(defs, i, p, scripts(defs[i].id)))
    && (forall i | k <= i < n :: defs[i].id in e.tasks && e.tasks[defs[i].id].status == PassedStatus(defs[i], p))
    && (n < |defs| ==> !Passes(defs, n, p, scripts(defs[n].id)))
    && (n < |defs| ==> (t.stop.value.Blocked? <==> GateStops(defs, n, p, scripts(defs[n].id))))
    && (n < |defs| ==> t.stop.value.error == StopReason(defs, n, p, scripts(defs[n].id)))
    && e.jobs == s.jobs + JobIds(defs, k, if n < |defs| then n + 1 else n, p, scripts)
  }

  function PassedStatus(def: TaskDef, params: Dict): TaskStatus {
    if ShouldSkip(def, params) then TaskStatus.Skipped else TaskStatus.Succeeded
  }

  lemma PassedStatusOf(def: TaskDef, params: Dict)
    ensures PassedStatus(def, params) == if ShouldSkip(def, params) then TaskStatus.Skipped else TaskStatus.Succeeded
  {
  }

  lemma JobIdsEnd(defs: seq<TaskDef>, n: nat, params: Dict, scripts: Scripts)
    requires n <= |defs|
    ensures JobIds(defs, n, n, params, scripts) == []
  {
  }

  lemma JobIdsStep(defs: seq<TaskDef>, k: nat, n: nat, params: Dict, scripts: Scripts)
    requires k < n <= |defs|
    ensures JobIds(defs, k, n, params, scripts) ==
      (if GetsJob(defs, k, params, scripts(defs[k].id)) then [defs[k].id] else [])
      + JobIds(defs, k + 1, n, params, scripts)
  {
  }

  lemma {:induction false} FreshLoop(defs: seq<TaskDef>, k: nat, s: Snapshot, scripts: Scripts)
    requires k <= |defs| && DistinctIds(defs) && AtStep(defs, s, k)
    ensures
      var t := Loop(defs[k..], s, scripts);
      LoopDecides(defs, k, s, scripts, t, LastOf(s, t.commits))
    decreases |defs| - k
  {
    hide TaskRun, After, Passes, GateStops, GetsJob, AtStep, ShouldSkip, Loop, DistinctIds, Settled;
    hide JobIds, PassedStatus, LastOf, StopReason;
    if k == |defs| {
      assert defs[k..] == [];
      EmptyLoop(s, scripts);
      JobIdsEnd(defs, k, s.run.params, scripts);
    } else {
      assert defs[k..][0] == defs[k] && defs[k..][1..] == defs[k + 1..];
      var first, mid := LoopStep(defs[k..], s, scripts);
      var script := scripts(defs[k].id);
      FreshTask(defs, s, k, script);
      OneRowChanges(s, defs[k].id, first, |first.writes|);
      if Stops(first.outcome) {
        JobIdsStep(defs, k, k + 1, s.run.params, scripts);
        JobIdsEnd(defs, k + 1, s.run.params, scripts);
      } else {
        NextStep(defs, s, k, script);
        FreshLoop(defs, k + 1, mid, scripts);
        var t := Loop(defs[k..], s, scripts);
        var e := LastOf(s, t.commits);
        RowIsKept(defs, k + 1, mid, scripts, defs[k].id);
        TaskOutcomeShows(defs[k], s, script);
        SettledIsThere(mid, defs[k].id);
        PassedStatusOf(defs[k], s.run.params);
        assert e.tasks[defs[k].id].status == PassedStatus(defs[k], s.run.params);
        JobIdsStep(defs, k, if k + t.done < |defs| then k + t.done + 1 else k + t.done, s.run.params, scripts);
      }
    }
  }

  lemma RowIsKept(defs: seq<TaskDef>, k: nat, s: Snapshot, scripts: Scripts, id: string)
    requires k <= |defs|
    ensures Settled(s, id) ==> SameRow(s, LastOf(s, Loop(defs[k..], s, scripts).commits), id)
  {
    hide Loop, RunningIsReady, NoneRunning;
    LoopKeeps(defs[k..], s, scripts);
  }

  // ---- a fresh run as a whole ----

  lemma HasIdSnoc(defs: seq<TaskDef>, id: string)
    requires defs != []
    ensures HasId(defs, id) <==> HasId(defs[..|defs| - 1], id) || id == defs[|defs| - 1].id
  {
    var front := defs[..|defs| - 1];
    if HasId(front, id) {
      var i :| 0 <= i < |front| && front[i].id == id;
      assert defs[i].id == id;
    }
    if HasId(defs, id) && id != defs[|defs| - 1].id {
      var i :| 0 <= i < |defs| && defs[i].id == id;
      assert front[i].id == id;
    }
  }

  lemma {:induction false} FreshRowsHold(defs: seq<TaskDef>, params: Dict)
    requires DistinctIds(defs)
    ensures forall id :: id in FreshRows(defs, params) <==> HasId(defs, id)
    ensures forall i | 0 <= i < |defs| ::
      defs[i].id in FreshRows(defs, params) && FreshRows(defs, params)[defs[i].id] == FreshRow(defs[i], params)
  {
    hide FreshRow, HasId;
    if defs != [] {
      var front, last := defs[..|defs| - 1], defs[|defs| - 1];
      FreshRowsHold(front, params);
      forall id {
        HasIdSnoc(defs, id);
      }
      forall i | 0 <= i < |front|
        ensures defs[i].id in FreshRows(defs, params)
        ensures FreshRows(defs, params)[defs[i].id] == FreshRow(defs[i], params)
      {
        assert front[i] == defs[i] && IdOf(defs[i]) != IdOf(last);
      }
    } else {
      NoIds();
    }
  }

  lemma NoIds()
    ensures forall id :: !HasId([], id)
  {
  }

  lemma OrderKeepsIds(defs: seq<TaskDef>)
    requires DistinctIds(defs)
    ensures DistinctIds(InOrder(defs))
  {
    SortByDistinct(defs, RankOf, IdOf);
  }

  lemma CreatedAtStep(defs: seq<TaskDef>, params: Dict)
    requires DistinctIds(defs)
    ensures DistinctIds(InOrder(defs)) && AtStep(InOrder(defs), Started(Created(defs, params)), 0)
    ensures forall i | 0 <= i < |InOrder(defs)| ::
      Started(Created(defs, params)).tasks[InOrder(defs)[i].id] == FreshRow(InOrder(defs)[i], params)
  {
    hide FreshRows, HasId, SortBy;
    OrderKeepsIds(defs);
    FreshRowsHold(InOrder(defs), params);
    forall i | 0 <= i < |InOrder(defs)| {
      IdIsThere(InOrder(defs), i);
    }
  }

  /** How a fresh run of the tasks `ordered` ends, `n` being the first task that does
      not pass. */
  ghost predicate FreshRunEnds(ordered: seq<TaskDef>, params: Dict, scripts: Scripts, n: nat, e: Snapshot) {
    && n <= |ordered|
    && (forall i | 0 <= i < n :: Passes(ordered, i, params, scripts(ordered[i].id)))
    && (n < |ordered| ==> !Passes(ordered, n, params, scripts(ordered[n].id)))
    && (forall i | 0 <= i < |ordered| :: ordered[i].id in e.tasks)
    && (forall i | 0 <= i < n :: e.tasks[ordered[i].id].status == PassedStatus(ordered[i], params))
    && (forall i | n < i < |ordered| :: e.tasks[ordered[i].id] == FreshRow(ordered[i], params))
    && e.jobs == JobIds(ordered, 0, if n < |ordered| then n + 1 else n, params, scripts)
    && if n == |ordered| then e.run.status.Succeeded? && e.run.error == None
       else
         var stop := e.tasks[ordered[n].id];
         && stop.error == e.run.error == Some(StopReason(ordered, n, params, scripts(ordered[n].id)))
         && if GateStops(ordered, n, params, scripts(ordered[n].id))
            then stop.status.Blocked? && e.run.status.Blocked?
            else stop.status.Failed? && e.run.status.Failed?
  }

  /** Statuses in run order are (SUCCEEDED or SKIPPED)*, then at most one BLOCKED or
      FAILED, then PENDING; the run's status says which; no task behind the stop
      ever gets a job. */
  lemma FreshRun(defs: seq<TaskDef>, params: Dict, scripts: Scripts) returns (n: nat)
    requires DistinctIds(defs)
    ensures FreshRunEnds(InOrder(defs), params, scripts, n, AfterRun(defs, Created(defs, params), scripts))
  {
    hide Passes, GateStops, ShouldSkip, JobIds, PassedStatus, InOrder, BuiltResult, Loop, FreshRows, AtStep, HasId,
      DistinctIds, Listed, Settled, Reached, StopReason;
    var ordered, s := InOrder(defs), Started(Created(defs, params));
    CreatedAtStep(defs, params);
    var t := Loop(ordered, s, scripts);
    var e := LastOf(s, t.commits);
    n := t.done;
    assert ordered[0..] == ordered;
    FreshLoop(ordered, 0, s, scripts);
    LoopShape(ordered, s, scripts);
    assert t.done <= |ordered| && (t.done < |ordered| <==> t.stop.Some?);
    AllRowsThere(ordered, s, t, e, scripts);
    assert AfterRun(defs, Created(defs, params), scripts) == Finished(e, ordered, t.stop);
  }

  lemma NotReachedBehind(defs: seq<TaskDef>, n: nat, i: nat)
    requires DistinctIds(defs) && n < i < |defs|
    ensures !Reached(defs, n, defs[i].id)
  {
    forall k | 0 <= k <= n
      ensures defs[k].id != defs[i].id
    {
      assert IdOf(defs[k]) != IdOf(defs[i]);
    }
  }

  /** The rows a fresh loop leaves: all of them, and fresh ones behind the stop. */
  lemma AllRowsThere(ordered: seq<TaskDef>, s: Snapshot, t: LoopTrace, e: Snapshot, scripts: Scripts)
    requires DistinctIds(ordered) && AtStep(ordered, s, 0) && t.done <= |ordered|
    requires forall i | 0 <= i < |ordered| :: s.tasks[ordered[i].id] == FreshRow(ordered[i], s.run.params)
    requires t == Loop(ordered, s, scripts) && e == LastOf(s, t.commits) && LoopLeaves(ordered, s, t, e)
    ensures forall i | 0 <= i < |ordered| :: ordered[i].id in e.tasks
    ensures forall i | t.done < i < |ordered| :: e.tasks[ordered[i].id] == FreshRow(ordered[i], s.run.params)
  {
    hide Loop, FreshRow;
    forall i | 0 <= i < |ordered|
      ensures ordered[i].id in e.tasks
      ensures t.done < i ==> e.tasks[ordered[i].id] == FreshRow(ordered[i], s.run.params)
    {
      IdIsThere(ordered, i);
      if t.done < i {
        NotReachedBehind(ordered, t.done, i);
        assert SameRow(s, e, ordered[i].id);
      }
    }
  }

  /** A fresh run succeeds exactly when every task passes. */
  lemma SucceedsIffAllPass(defs: seq<TaskDef>, params: Dict, scripts: Scripts)
    requires DistinctIds(defs)
    ensures
      var ordered := InOrder(defs);
      AfterRun(defs, Created(defs, params), scripts).run.status.Succeeded? <==>
        forall i | 0 <= i < |ordered| :: Passes(ordered, i, params, scripts(ordered[i].id))
  {
    hide Passes, GateStops, InOrder, AfterRun, JobIds, StopReason;
    var n := FreshRun(defs, params, scripts);
  }

  // ---- dependencies and cycles ----

  predicate NoRepeats(ids: seq<string>) {
    forall a, b | 0 <= a < b < |ids| :: ids[a] != ids[b]
  }

  /** Only tasks whose dependencies all come before them get a job, and each at most
      once. */
  lemma {:induction false} JobsFollowDependencies(defs: seq<TaskDef>, k: nat, n: nat, params: Dict, scripts: Scripts)
    requires DistinctIds(defs) && n <= |defs|
    ensures forall j | j in JobIds(defs, k, n, params, scripts) ::
      exists i: nat :: k <= i < n && defs[i].id == j && DependenciesBefore(defs, i)
    ensures NoRepeats(JobIds(defs, k, n, params, scripts))
    decreases n - k
  {
    hide ShouldSkip, DependenciesBefore;
    if k < n {
      JobsFollowDependencies(defs, k + 1, n, params, scripts);
      var rest := JobIds(defs, k + 1, n, params, scripts);
      forall m | 0 <= m < |rest|
        ensures rest[m] != defs[k].id
      {
        assert rest[m] in rest;
        var i: nat :| k + 1 <= i < n && defs[i].id == rest[m];
        assert IdOf(defs[k]) != IdOf(defs[i]);
      }
    }
  }

  /** In a fresh run that succeeds, every task that ran comes after all its
      dependencies. */
  lemma RanAfterDependencies(defs: seq<TaskDef>, params: Dict, scripts: Scripts)
    requires DistinctIds(defs) && AfterRun(defs, Created(defs, params), scripts).run.status.Succeeded?
    ensures
      var ordered := InOrder(defs);
      forall i | 0 <= i < |ordered| && !ShouldSkip(ordered[i], params) :: DependenciesBefore(ordered, i)
  {
    hide InOrder, AfterRun, ShouldSkip, DependenciesBefore, Delivers, GateFires;
    SucceedsIffAllPass(defs, params, scripts);
  }

  /** Each task of the chain depends on the next, and all of them ran. */
  ghost predicate RanChain(ordered: seq<TaskDef>, params: Dict, chain: seq<nat>) {
    && (forall m | 0 <= m < |chain| :: chain[m] < |ordered| && !ShouldSkip(ordered[chain[m]], params))
    && (forall m, l | 0 <= m < l < |chain| && l == m + 1 :: ordered[chain[l]].id in ordered[chain[m]].dependsOn)
  }

  /** Dependency chains among the tasks that ran only go backwards, so they have no
      cycle. */
  lemma {:induction false} RanTasksHaveNoCycle(defs: seq<TaskDef>, params: Dict, scripts: Scripts, chain: seq<nat>)
    requires DistinctIds(defs) && AfterRun(defs, Created(defs, params), scripts).run.status.Succeeded?
    requires |chain| >= 2 && RanChain(InOrder(defs), params, chain)
    ensures chain[|chain| - 1] < chain[0]
  {
    hide AfterRun, ShouldSkip, InOrder;
    var ordered := InOrder(defs);
    RanAfterDependencies(defs, params, scripts);
    OrderKeepsIds(defs);
    var a, b := chain[0], chain[1];
    assert DependenciesBefore(ordered, a) && ordered[b].id in ordered[a].dependsOn;
    var i :| 0 <= i < a && ordered[..a][i].id == ordered[b].id;
    SameIdSameTask(ordered, i, b);
    if |chain| > 2 {
      var rest := chain[1..];
      assert forall m | 0 <= m < |rest| :: rest[m] == chain[m + 1];
      RanTasksHaveNoCycle(defs, params, scripts, rest);
    }
  }

  /** Two tasks that each wait for the other. */
  function Deadlocked(): seq<TaskDef> {
    [TaskDef("a", "a", 0, "job", ["b"], map[], false, [], [], []),
     TaskDef("b", "b", 1, "job", ["a"], map[], false, [], [], [])]
  }

  lemma DeadlockedIsValid()
    ensures DistinctIds(Deadlocked()) && DependenciesExist(Deadlocked()) && InOrder(Deadlocked()) == Deadlocked()
    ensures !DependenciesBefore(Deadlocked(), 0)
  {
    hide SortBy;
    var defs := Deadlocked();
    assert defs[0].id == "a" && defs[1].id == "b";
    assert HasId(defs, "a") && HasId(defs, "b");
    assert IdOf(defs[0])[0] != IdOf(defs[1])[0];
    SortedIsFixed(defs, RankOf);
    assert "b" in defs[0].dependsOn && !HasId(defs[..0], "b");
  }

  /** Distinct ids and existing dependencies do not rule out a cycle; such a run fails
      at its first task and creates no job. */
  lemma CyclesPassValidation(params: Dict, scripts: Scripts)
    ensures DistinctIds(Deadlocked()) && DependenciesExist(Deadlocked())
    ensures
      var e := AfterRun(Deadlocked(), Created(Deadlocked(), params), scripts);
      e.run.status.Failed? && e.jobs == []
  {
    hide AfterRun, InOrder, DistinctIds, DependenciesExist, DependenciesBefore, Delivers, GateFires;
    DeadlockedIsValid();
    var n := FreshRun(Deadlocked(), params, scripts);
  }

  // ---- the shape, over any number of runs ----

  /** Between runs the tasks before `n` are settled, those behind it are as created, and
      the one at `n` says why the last run that started it stopped. */
  ghost predicate ShapeAt(ordered: seq<TaskDef>, s: Snapshot, n: nat) {
    && n <= |ordered|
    && (forall id :: id in s.tasks <==> HasId(ordered, id))
    && (forall i | 0 <= i < |ordered| :: KeepsDependencies(ordered[i], s))
    && (forall i | 0 <= i < n :: Settled(s, ordered[i].id))
    && (forall i | n < i < |ordered| :: IsFresh(ordered[i], s))
    && (n < |ordered| ==> ordered[n].id in s.tasks && Unsettled(ordered[n], s.tasks[ordered[n].id], s.run))
    && (s.run.status.Succeeded? ==> n == |ordered|)
    && (s.run.status.Blocked? || s.run.status.Failed? ==> n < |ordered|)
    && !s.run.status.Running?
  }

  predicate IsFresh(def: TaskDef, s: Snapshot) {
    def.id in s.tasks && s.tasks[def.id] == FreshRow(def, s.run.params)
  }

  predicate KeepsDependencies(def: TaskDef, s: Snapshot) {
    def.id in s.tasks && s.tasks[def.id].dependsOn == def.dependsOn
  }

  /** Untouched, blocked or failed; as the run says, if it ended there. */
  predicate Unsettled(def: TaskDef, row: TaskRow, run: RunRow) {
    && (row == FreshRow(def, run.params) || row.status.Blocked? || row.status.Failed?)
    && (run.status.Blocked? ==> row.status.Blocked? && row.error == run.error)
    && (run.status.Failed? ==> row.status.Failed? && row.error == run.error)
  }

  /** The loop passes every task that is settled already. */
  lemma {:induction false} LoopPassesSettled(defs: seq<TaskDef>, s: Snapshot, scripts: Scripts, n: nat)
    requires n <= |defs| && forall i | 0 <= i < n :: Settled(s, defs[i].id)
    ensures Loop(defs, s, scripts).done >= n
  {
    hide TaskRun, After, Settled, Loop;
    if n > 0 {
      var first, mid := LoopStep(defs, s, scripts);
      TaskOutcomeShows(defs[0], s, scripts(defs[0].id));
      SettledIsLeft(defs[0], s, scripts(defs[0].id));
      assert forall i | 0 <= i < n - 1 :: defs[1..][i] == defs[i + 1];
      LoopPassesSettled(defs[1..], mid, scripts, n - 1);
    }
  }

  lemma SettledIsLeft(def: TaskDef, s: Snapshot, script: TaskScript)
    requires Settled(s, def.id)
    ensures AfterAll(s, def.id, TaskRun(def, s, script)) == s
    ensures TaskRun(def, s, script).writes == []
  {
    hide ShouldSkip, DependenciesReady, JobRun;
  }

  /** The loop starts, in effect, behind the tasks that are settled already. */
  lemma {:induction false} LoopSkipsSettled(defs: seq<TaskDef>, s: Snapshot, scripts: Scripts, n: nat)
    requires n <= |defs| && forall i | 0 <= i < n :: Settled(s, defs[i].id)
    ensures
      var rest := Loop(defs[n..], s, scripts);
      Loop(defs, s, scripts) == LoopTrace(rest.commits, n + rest.done, rest.stop)
  {
    hide TaskRun, After, Settled, Loop;
    if n == 0 {
      assert defs[0..] == defs;
    } else {
      var first, mid := LoopStep(defs, s, scripts);
      TaskOutcomeShows(defs[0], s, scripts(defs[0].id));
      SettledIsLeft(defs[0], s, scripts(defs[0].id));
      assert forall i | 0 <= i < n - 1 :: defs[1..][i] == defs[i + 1];
      LoopSkipsSettled(defs[1..], mid, scripts, n - 1);
      assert defs[1..][n - 1..] == defs[n..];
      assert Commits(s, defs[0].id, first) == [];
      assert [] + Loop(defs[1..], s, scripts).commits == Loop(defs[1..], s, scripts).commits;
    }
  }

  lemma TaskKeepsDependencies(def: TaskDef, s: Snapshot, script: TaskScript)
    requires def.id in s.tasks
    ensures
      var e := AfterAll(s, def.id, TaskRun(def, s, script));
      def.id in e.tasks && e.tasks[def.id].dependsOn == s.tasks[def.id].dependsOn
  {
    hide TaskRun, ShouldSkip, DependenciesReady;
    TaskWritesOk(def, s, script);
  }

  /** No run changes a row's dependencies, or removes a row. */
  lemma {:induction false} LoopKeepsDependencies(defs: seq<TaskDef>, s: Snapshot, scripts: Scripts)
    requires forall i | 0 <= i < |defs| :: defs[i].id in s.tasks
    ensures
      var e := LastOf(s, Loop(defs, s, scripts).commits);
      forall id | id in s.tasks :: id in e.tasks && e.tasks[id].dependsOn == s.tasks[id].dependsOn
  {
    hide TaskRun, After, Loop;
    if defs == [] {
      EmptyLoop(s, scripts);
    } else {
      var first, mid := LoopStep(defs, s, scripts);
      TaskKeepsDependencies(defs[0], s, scripts(defs[0].id));
      OneRowChanges(s, defs[0].id, first, |first.writes|);
      forall id | id in s.tasks
        ensures id in mid.tasks && mid.tasks[id].dependsOn == s.tasks[id].dependsOn
      {
        assert id != defs[0].id ==> SameRow(s, mid, id);
      }
      if !Stops(first.outcome) {
        assert forall i | 0 <= i < |defs| - 1 :: defs[1..][i] == defs[i + 1];
        LoopKeepsDependencies(defs[1..], mid, scripts);
      }
    }
  }

  /** What the loop needs to find, and leaves behind with `n` moved on. */
  ghost predicate LoopShaped(ordered: seq<TaskDef>, s: Snapshot, n: nat) {
    && n <= |ordered|
    && (forall id :: id in s.tasks <==> HasId(ordered, id))
    && (forall i | 0 <= i < |ordered| :: KeepsDependencies(ordered[i], s))
    && (forall i | 0 <= i < n :: Settled(s, ordered[i].id))
    && (forall i | n < i < |ordered| :: IsFresh(ordered[i], s))
  }

  lemma LoopReshapes(ordered: seq<TaskDef>, s: Snapshot, scripts: Scripts, n: nat)
    requires DistinctIds(ordered) && LoopShaped(ordered, s, n)
    ensures
      var t := Loop(ordered, s, scripts);
      var e := LastOf(s, t.commits);
      && n <= t.done && e.run == s.run && LoopShaped(ordered, e, t.done)
      && (t.done < |ordered| ==> StoppedAt(s, e, ordered[t.done].id, t.stop.value))
  {
    hide Loop, FreshRow, Reached, Settled, HasId;
    LoopShape(ordered, s, scripts);
    LoopPassesSettled(ordered, s, scripts, n);
    assert forall i | 0 <= i < |ordered| :: KeepsDependencies(ordered[i], s);
    LoopKeepsDependencies(ordered, s, scripts);
    var t := Loop(ordered, s, scripts);
    var e := LastOf(s, t.commits);
    forall id
      ensures id in e.tasks <==> HasId(ordered, id)
    {
      if !HasId(ordered, id) {
        UnknownIsNotReached(ordered, t.done, id);
        assert SameRow(s, e, id);
      }
    }
    forall i | 0 <= i < |ordered|
      ensures KeepsDependencies(ordered[i], e)
      ensures t.done < i ==> IsFresh(ordered[i], e)
    {
      assert KeepsDependencies(ordered[i], s);
      if t.done < i {
        NotReachedBehind(ordered, t.done, i);
        assert SameRow(s, e, ordered[i].id) && IsFresh(ordered[i], s);
      }
    }
  }

  lemma UnknownIsNotReached(defs: seq<TaskDef>, n: nat, id: string)
    requires !HasId(defs, id)
    ensures !Reached(defs, n, id)
  {
  }

  /** Only a run's own row tells its shape from that of its loop. */
  lemma ShapedSameTasks(ordered: seq<TaskDef>, a: Snapshot, b: Snapshot, n: nat)
    requires LoopShaped(ordered, a, n) && b.tasks == a.tasks && b.run.params == a.run.params
    ensures LoopShaped(ordered, b, n)
  {
    hide FreshRow, HasId;
    forall id {
      SettledBySame(a, b, id);
    }
    assert forall i | n < i < |ordered| :: IsFresh(ordered[i], a) ==> IsFresh(ordered[i], b);
    assert forall i | 0 <= i < |ordered| :: KeepsDependencies(ordered[i], a) ==> KeepsDependencies(ordered[i], b);
  }

  lemma FinishedShape(ordered: seq<TaskDef>, s: Snapshot, e: Snapshot, t: LoopTrace)
    requires t.done <= |ordered| && LoopShaped(ordered, e, t.done)
    requires (t.done < |ordered| <==> t.stop.Some?) && (t.stop.Some? ==> Stops(t.stop.value))
    requires forall id :: id in s.tasks <==> HasId(ordered, id)
    requires t.done < |ordered| ==> StoppedAt(s, e, ordered[t.done].id, t.stop.value)
    ensures ShapeAt(ordered, Finished(e, ordered, t.stop), t.done)
  {
    hide FreshRow, HasId, BuiltResult, Listed, Settled;
    ShapedSameTasks(ordered, e, Finished(e, ordered, t.stop), t.done);
    if t.done < |ordered| {
      assert KeepsDependencies(ordered[t.done], e);
    }
  }

  lemma OpReshapes(defs: seq<TaskDef>, s: Snapshot, op: Op, n: nat) returns (m: nat)
    requires DistinctIds(defs) && ShapeAt(InOrder(defs), s, n)
    ensures n <= m && ShapeAt(InOrder(defs), LastOf(s, OpCommits(defs, s, op)), m)
  {
    hide Loop, FreshRow, InOrder, BuiltResult, Listed, DistinctIds, Settled, HasId, Finished;
    m := n;
    var ordered := InOrder(defs);
    assert LoopShaped(ordered, s, n);
    if op.Execute? && Startable(s.run.status) {
      var started := Started(s);
      OrderKeepsIds(defs);
      ShapedSameTasks(ordered, s, started, n);
      LoopReshapes(ordered, started, op.scripts, n);
      var t := Loop(ordered, started, op.scripts);
      FinishedShape(ordered, started, LastOf(started, t.commits), t);
      assert LastOf(s, OpCommits(defs, s, op)) == Finished(LastOf(started, t.commits), ordered, t.stop);
      m := t.done;
    } else if op.Queue? && Queueable(s.run.status) {
      ShapedSameTasks(ordered, s, LastOf(s, OpCommits(defs, s, op)), n);
    }
  }

  /** However often a created run is executed and queued, its tasks are, in order,
      SUCCEEDED or SKIPPED ones, then at most one BLOCKED or FAILED, then untouched ones;
      and the settled part only grows. */
  lemma {:induction false} HistoryReshapes(defs: seq<TaskDef>, s: Snapshot, ops: seq<Op>, n: nat) returns (m: nat)
    requires DistinctIds(defs) && ShapeAt(InOrder(defs), s, n)
    ensures n <= m && ShapeAt(InOrder(defs), LastOf(s, History(defs, s, ops)), m)
    decreases |ops|
  {
    hide ShapeAt, OpCommits, DistinctIds;
    if |ops| == 0 {
      m := n;
    } else {
      var first := OpCommits(defs, s, ops[0]);
      var k := OpReshapes(defs, s, ops[0], n);
      m := HistoryReshapes(defs, LastOf(s, first), ops[1..], k);
      LastOfAppend(s, first, History(defs, LastOf(s, first), ops[1..]));
    }
  }

  lemma CreatedShape(defs: seq<TaskDef>, params: Dict)
    requires DistinctIds(defs)
    ensures ShapeAt(InOrder(defs), Created(defs, params), 0)
  {
    hide FreshRows, HasId, SortBy;
    OrderKeepsIds(defs);
    FreshRowsHold(InOrder(defs), params);
  }

  lemma EveryHistoryHasTheShape(defs: seq<TaskDef>, params: Dict, ops: seq<Op>) returns (n: nat)
    requires DistinctIds(defs)
    ensures ShapeAt(InOrder(defs), LastOf(Created(defs, params), History(defs, Created(defs, params), ops)), n)
  {
    CreatedShape(defs, params);
    n := HistoryReshapes(defs, Created(defs, params), ops, 0);
  }

  // ---- how the next run ends, from any shape ----

  /** A run of `ordered` that began with the tasks before `n` settled ends before task
      `m`, the first one from `n` on that does not pass. */
  ghost predicate RunEnds(ordered: seq<TaskDef>, s: Snapshot, scripts: Scripts, n: nat, m: nat, e: Snapshot) {
    var p := s.run.params;
    && n <= m <= |ordered|
    && (forall i | n <= i < m :: Passes(ordered, i, p, scripts(ordered[i].id)))
    && (forall i | n <= i < m ::
          ordered[i].id in e.tasks && e.tasks[ordered[i].id].status == PassedStatus(ordered[i], p))
    && (m < |ordered| ==> !Passes(ordered, m, p, scripts(ordered[m].id)))
    && e.jobs == s.jobs + JobIds(ordered, n, if m < |ordered| then m + 1 else m, p, scripts)
    && (m < |ordered| ==> e.run.error == Some(StopReason(ordered, m, p, scripts(ordered[m].id))))
    && if m == |ordered| then e.run.status.Succeeded? && e.run.error == None
       else if GateStops(ordered, m, p, scripts(ordered[m].id)) then e.run.status.Blocked?
       else e.run.status.Failed?
  }

  lemma ShapeIsStep(ordered: seq<TaskDef>, s: Snapshot, n: nat)
    requires ShapeAt(ordered, s, n)
    ensures AtStep(ordered, Started(s), n) && LoopShaped(ordered, Started(s), n)
  {
    hide HasId;
    assert LoopShaped(ordered, s, n);
    ShapedSameTasks(ordered, s, Started(s), n);
    forall i | n <= i < |ordered|
      ensures Waits(ordered[i], Started(s))
    {
      assert KeepsDependencies(ordered[i], s);
      assert i > n ==> IsFresh(ordered[i], s);
    }
  }

  /** From any shape, a run that may start goes on from the first unsettled task; what
      it comes to is decided by the definition and the environment. */
  lemma RunFromShape(defs: seq<TaskDef>, s: Snapshot, scripts: Scripts, n: nat) returns (m: nat)
    requires DistinctIds(defs) && ShapeAt(InOrder(defs), s, n) && Startable(s.run.status)
    ensures RunEnds(InOrder(defs), s, scripts, n, m, AfterRun(defs, s, scripts))
    ensures ShapeAt(InOrder(defs), AfterRun(defs, s, scripts), m)
  {
    hide Passes, GateStops, JobIds, PassedStatus, InOrder, BuiltResult, Loop, ShapeAt, AtStep, LoopShaped, DistinctIds;
    hide Listed, StoppedAt, StopReason;
    var ordered, started := InOrder(defs), Started(s);
    OrderKeepsIds(defs);
    ShapeIsStep(ordered, s, n);
    SettledFirst(ordered, started, n);
    LoopReshapes(ordered, started, scripts, n);
    LoopSkipsSettled(ordered, started, scripts, n);
    FreshLoop(ordered, n, started, scripts);
    var t := Loop(ordered, started, scripts);
    var e := LastOf(started, t.commits);
    AllThere(ordered, started, n);
    FinishedShape(ordered, started, e, t);
    assert AfterRun(defs, s, scripts) == Finished(e, ordered, t.stop);
    m := t.done;
  }

  lemma SettledFirst(ordered: seq<TaskDef>, s: Snapshot, n: nat)
    requires AtStep(ordered, s, n)
    ensures n <= |ordered| && forall i | 0 <= i < n :: Settled(s, ordered[i].id)
  {
  }

  lemma AllThere(ordered: seq<TaskDef>, s: Snapshot, n: nat)
    requires LoopShaped(ordered, s, n)
    ensures forall id :: id in s.tasks <==> HasId(ordered, id)
  {
  }

  /** From any shape, the next run succeeds exactly when every task that is not settled
      yet passes. */
  lemma NextRunSucceedsIff(defs: seq<TaskDef>, s: Snapshot, scripts: Scripts, n: nat)
    requires DistinctIds(defs) && ShapeAt(InOrder(defs), s, n) && Startable(s.run.status)
    ensures
      var ordered := InOrder(defs);
      AfterRun(defs, s, scripts).run.status.Succeeded? <==>
        forall i | n <= i < |ordered| :: Passes(ordered, i, s.run.params, scripts(ordered[i].id))
  {
    hide Passes, GateStops, InOrder, AfterRun, JobIds, ShapeAt, DistinctIds, StopReason;
    var m := RunFromShape(defs, s, scripts, n);
  }

  // ---- dependencies, over any number of runs ----

  /** The job was created for a task that comes after all its dependencies. */
  ghost predicate JobInOrder(ordered: seq<TaskDef>, job: string) {
    exists i: nat :: i < |ordered| && ordered[i].id == job && DependenciesBefore(ordered, i)
  }

  lemma OpKeepsJobsInOrder(defs: seq<TaskDef>, s: Snapshot, op: Op, n: nat)
    requires DistinctIds(defs) && ShapeAt(InOrder(defs), s, n)
    requires forall j | j in s.jobs :: JobInOrder(InOrder(defs), j)
    ensures forall j | j in LastOf(s, OpCommits(defs, s, op)).jobs :: JobInOrder(InOrder(defs), j)
  {
    hide InOrder, ShapeAt, DistinctIds, DependenciesBefore, Passes, GateStops, JobIds, Loop, BuiltResult, Listed;
    if op.Execute? && Startable(s.run.status) {
      var ordered := InOrder(defs);
      var m := RunFromShape(defs, s, op.scripts, n);
      OrderKeepsIds(defs);
      JobsFollowDependencies(ordered, n, if m < |ordered| then m + 1 else m, s.run.params, op.scripts);
      assert AfterRun(defs, s, op.scripts) == LastOf(s, OpCommits(defs, s, op));
    }
  }

  lemma {:induction false} HistoryKeepsJobsInOrder(defs: seq<TaskDef>, s: Snapshot, ops: seq<Op>, n: nat)
    requires DistinctIds(defs) && ShapeAt(InOrder(defs), s, n)
    requires forall j | j in s.jobs :: JobInOrder(InOrder(defs), j)
    ensures forall j | j in LastOf(s, History(defs, s, ops)).jobs :: JobInOrder(InOrder(defs), j)
    decreases |ops|
  {
    hide ShapeAt, OpCommits, DistinctIds, JobInOrder;
    if |ops| > 0 {
      var first := OpCommits(defs, s, ops[0]);
      OpKeepsJobsInOrder(defs, s, ops[0], n);
      var k := OpReshapes(defs, s, ops[0], n);
      HistoryKeepsJobsInOrder(defs, LastOf(s, first), ops[1..], k);
      LastOfAppend(s, first, History(defs, LastOf(s, first), ops[1..]));
    }
  }

  /** However often a created run is executed and queued, and however it ends, only
      tasks that come after all their dependencies ever get a job. */
  lemma EveryJobFollowsDependencies(defs: seq<TaskDef>, params: Dict, ops: seq<Op>)
    requires DistinctIds(defs)
    ensures
      forall j | j in LastOf(Created(defs, params), History(defs, Created(defs, params), ops)).jobs ::
        JobInOrder(InOrder(defs), j)
  {
    CreatedShape(defs, params);
    HistoryKeepsJobsInOrder(defs, Created(defs, params), ops, 0);
  }

  /** Each task of the chain depends on the next, and all of them got a job. */
  ghost predicate JobChain(ordered: seq<TaskDef>, jobs: seq<string>, chain: seq<nat>) {
    && (forall m | 0 <= m < |chain| :: chain[m] < |ordered| && ordered[chain[m]].id in jobs)
    && (forall m, l | 0 <= m < l < |chain| && l == m + 1 :: ordered[chain[l]].id in ordered[chain[m]].dependsOn)
  }

  lemma {:induction false} JobChainGoesBack(ordered: seq<TaskDef>, jobs: seq<string>, chain: seq<nat>)
    requires DistinctIds(ordered) && forall j | j in jobs :: JobInOrder(ordered, j)
    requires |chain| >= 2 && JobChain(ordered, jobs, chain)
    ensures chain[|chain| - 1] < chain[0]
  {
    var a, b := chain[0], chain[1];
    assert JobInOrder(ordered, ordered[a].id) && ordered[b].id in ordered[a].dependsOn;
    var k: nat :| k < |ordered| && ordered[k].id == ordered[a].id && DependenciesBefore(ordered, k);
    SameIdSameTask(ordered, k, a);
    var i :| 0 <= i < a && ordered[..a][i].id == ordered[b].id;
    SameIdSameTask(ordered, i, b);
    if |chain| > 2 {
      var rest := chain[1..];
      assert forall m | 0 <= m < |rest| :: rest[m] == chain[m + 1];
      JobChainGoesBack(ordered, jobs, rest);
    }
  }

  /** So the tasks that ever got a job have no dependency cycle, in any history. */
  lemma JobsHaveNoCycle(defs: seq<TaskDef>, params: Dict, ops: seq<Op>, chain: seq<nat>)
    requires DistinctIds(defs) && |chain| >= 2
    requires
      var s := LastOf(Created(defs, params), History(defs, Created(defs, params), ops));
      JobChain(InOrder(defs), s.jobs, chain)
    ensures chain[|chain| - 1] < chain[0]
  {
    hide JobInOrder, JobChain, History, InOrder;
    var s := LastOf(Created(defs, params), History(defs, Created(defs, params), ops));
    OrderKeepsIds(defs);
    EveryJobFollowsDependencies(defs, params, ops);
    JobChainGoesBack(InOrder(defs), s.jobs, chain);
  }
}
