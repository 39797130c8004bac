/** What every pipeline run keeps, over any number of runs and queuings. */
module PipelineSafety {
  import opened Prelude
  import opened Json
  import opened PipelineRecords
  import opened TaskResults
  import opened RunResults
  import opened PipelineRun
  import JobRunner

  // ---- one task run ----

  /** What no write changes. */
  predicate KeepsOwn(before: TaskRow, after: TaskRow) {
    after.id == before.id && after.order == before.order && after.params == before.params
  }

  /** What a task run may write. */
  ghost predicate WritesOk(def: TaskDef, s: Snapshot, t: TaskTrace) {
    var row := RowOf(s, def);
    && (Settled(s, def.id) ==> t.writes == [])
    && (forall i | 0 <= i < |t.writes| :: t.writes[i].dependsOn == row.dependsOn && KeepsOwn(row, t.writes[i]))
    && (forall i | 0 <= i < |t.writes| && t.writes[i].status.Running? ::
          DependenciesReady(row, s) && t.writes[i].error == None)
    && (t.jobAt < |t.writes| ==> DependenciesReady(row, s) && !ShouldSkip(def, s.run.params) && !Settled(s, def.id))
  }

  lemma TaskWritesOk(def: TaskDef, s: Snapshot, script: TaskScript)
    ensures WritesOk(def, s, TaskRun(def, s, script))
  {
    hide Normalize, FirstFiring, JobRunner.Outcome, ShouldSkip, DependenciesReady;
  }

  /** How a task run leaves its row. */
  lemma TaskOutcomeShows(def: TaskDef, s: Snapshot, script: TaskScript)
    ensures
      var t := TaskRun(def, s, script);
      var after := AfterAll(s, def.id, t);
      && (!Stops(t.outcome) <==> Settled(after, def.id))
      && (t.outcome.Blocked? ==>
            && def.id in after.tasks && after.tasks[def.id].status.Blocked?
            && after.tasks[def.id].error == Some(t.outcome.error))
      && (t.outcome.Raised? ==>
            if def.id in after.tasks
            then after.tasks[def.id].status.Failed? && after.tasks[def.id].error == Some(t.outcome.error)
            else after == s)
  {
    hide Normalize, FirstFiring, JobRunner.Outcome, ShouldSkip, DependenciesReady;
  }

  // ---- one pass of the loop ----

  lemma SameIdSameTask(defs: seq<TaskDef>, i: nat, j: nat)
    requires DistinctIds(defs) && i < |defs| && j < |defs| && defs[i].id == defs[j].id
    ensures i == j
  {
    assert i < j ==> IdOf(defs[i]) != IdOf(defs[j]);
    assert j < i ==> IdOf(defs[j]) != IdOf(defs[i]);
  }

  ghost predicate SameRow(a: Snapshot, b: Snapshot, id: string) {
    (id in a.tasks <==> id in b.tasks) && (id in a.tasks ==> a.tasks[id] == b.tasks[id])
  }

  lemma OneRowChanges(s: Snapshot, id: string, t: TaskTrace, n: nat)
    requires n <= |t.writes|
    ensures After(s, id, t, n).run == s.run
    ensures forall k | k != id :: SameRow(s, After(s, id, t, n), k)
  {
  }

  lemma LastOfCommits(s: Snapshot, id: string, t: TaskTrace)
    ensures LastOf(s, Commits(s, id, t)) == AfterAll(s, id, t)
  {
  }

  lemma LastOfAppend(s: Snapshot, a: seq<Snapshot>, b: seq<Snapshot>)
    ensures LastOf(s, a + b) == LastOf(LastOf(s, a), b)
  {
  }

  /** One turn of the loop, when it goes on. */
  lemma LoopStep(defs: seq<TaskDef>, s: Snapshot, scripts: Scripts) returns (first: TaskTrace, mid: Snapshot)
    requires defs != []
    ensures first == TaskRun(defs[0], s, scripts(defs[0].id)) && mid == AfterAll(s, defs[0].id, first)
    ensures
      var t := Loop(defs, s, scripts);
      var rest := Loop(defs[1..], mid, scripts);
      if Stops(first.outcome)
      then t == LoopTrace(Commits(s, defs[0].id, first), 0, Some(first.outcome)) && LastOf(s, t.commits) == mid
      else
        && t == LoopTrace(Commits(s, defs[0].id, first) + rest.commits, rest.done + 1, rest.stop)
        && LastOf(s, t.commits) == LastOf(mid, rest.commits)
  {
    hide TaskRun, After;
    first := TaskRun(defs[0], s, scripts(defs[0].id));
    mid := AfterAll(s, defs[0].id, first);
    LastOfCommits(s, defs[0].id, first);
    LastOfAppend(s, Commits(s, defs[0].id, first), Loop(defs[1..], mid, scripts).commits);
  }

  /** How the row of the task that stopped the run was left. */
  ghost predicate StoppedAt(s: Snapshot, e: Snapshot, id: string, outcome: TaskOutcome)
    requires Stops(outcome)
  {
    || (id in e.tasks && e.tasks[id].error == Some(outcome.error)
        && if outcome.Blocked? then e.tasks[id].status.Blocked? else e.tasks[id].status.Failed?)
    || (outcome.Raised? && id !in s.tasks && id !in e.tasks)
  }

  /** `k` is one of the tasks up to and including the one at `n`. */
  ghost predicate Reached(defs: seq<TaskDef>, n: nat, k: string) {
    exists i | 0 <= i <= n && i < |defs| :: defs[i].id == k
  }

  lemma ReachedStep(defs: seq<TaskDef>, n: nat, k: string)
    requires defs != []
    ensures Reached(defs, n + 1, k) <==> k == defs[0].id || Reached(defs[1..], n, k)
    ensures Reached(defs, 0, k) <==> k == defs[0].id
    ensures DistinctIds(defs) ==> !Reached(defs[1..], n, defs[0].id) && DistinctIds(defs[1..])
  {
    if i :| 0 <= i <= n && i < |defs[1..]| && defs[1..][i].id == k {
      assert defs[i + 1].id == k;
    }
    if i :| 0 <= i <= n + 1 && i < |defs| && defs[i].id == k && k != defs[0].id {
      assert defs[1..][i - 1].id == k;
    }
    if DistinctIds(defs) {
      assert forall i | 0 <= i < |defs[1..]| :: defs[1..][i] == defs[i + 1];
    }
  }

  /** The tasks passed are settled, the one that stopped the run shows why, and
      those behind it are untouched. */
  ghost predicate LoopLeaves(defs: seq<TaskDef>, s: Snapshot, t: LoopTrace, e: Snapshot)
    requires t.done <= |defs| && (t.done < |defs| <==> t.stop.Some?) && (t.stop.Some? ==> Stops(t.stop.value))
  {
    && e.run == s.run
    && (forall i | 0 <= i < t.done :: Settled(e, defs[i].id))
    && (t.done < |defs| ==> StoppedAt(s, e, defs[t.done].id, t.stop.value))
    && (forall k | !Reached(defs, t.done, k) :: SameRow(s, e, k))
  }

  lemma {:induction false} LoopShape(defs: seq<TaskDef>, s: Snapshot, scripts: Scripts)
    requires DistinctIds(defs)
    ensures LoopLeaves(defs, s, Loop(defs, s, scripts), LastOf(s, Loop(defs, s, scripts).commits))
  {
    hide TaskRun, After, Settled, Loop, Reached;
    if defs == [] {
      EmptyLoop(s, scripts);
    } else {
      var first, mid := LoopStep(defs, s, scripts);
      TaskOutcomeShows(defs[0], s, scripts(defs[0].id));
      OneRowChanges(s, defs[0].id, first, |first.writes|);
      var t := Loop(defs, s, scripts);
      var e := LastOf(s, t.commits);
      var n := Loop(defs[1..], mid, scripts).done;
      ReachedStep(defs, n, defs[0].id);
      if !Stops(first.outcome) {
        LoopShape(defs[1..], mid, scripts);
        SettledBySame(mid, e, defs[0].id);
        forall k | !Reached(defs, t.done, k)
          ensures SameRow(s, e, k)
        {
          ReachedStep(defs, n, k);
          assert SameRow(s, mid, k) && SameRow(mid, e, k);
        }
        forall i | 0 <= i < t.done
          ensures Settled(e, defs[i].id)
        {
          assert i > 0 ==> defs[i] == defs[1..][i - 1];
        }
        if t.done < |defs| {
          assert defs[t.done] == defs[1..][t.done - 1];
          assert SameRow(s, mid, defs[t.done].id);
        }
      } else {
        forall k | !Reached(defs, t.done, k)
          ensures SameRow(s, e, k)
        {
          ReachedStep(defs, n, k);
        }
      }
    }
  }

  lemma SettledBySame(a: Snapshot, b: Snapshot, id: string)
    ensures SameRow(a, b, id) ==> (Settled(a, id) <==> Settled(b, id))
  {
  }

  lemma EmptyLoop(s: Snapshot, scripts: Scripts)
    ensures Loop([], s, scripts) == LoopTrace([], 0, None) && LastOf(s, []) == s
  {
  }

  // ---- what every commit keeps ----

  /** Settled rows stay as they are, and no job is created for them. */
  ghost predicate Keeps(a: Snapshot, c: Snapshot) {
    && c.run.params == a.run.params
    && (forall id | Settled(a, id) :: SameRow(a, c, id))
    && |a.jobs| <= |c.jobs| && c.jobs[..|a.jobs|] == a.jobs
    && (forall n | |a.jobs| <= n < |c.jobs| :: !Settled(a, c.jobs[n]))
  }

  ghost predicate NoneRunning(s: Snapshot) {
    forall id | id in s.tasks :: !s.tasks[id].status.Running?
  }

  /** The dependencies of every running task are settled. */
  ghost predicate RunningIsReady(c: Snapshot) {
    forall id | id in c.tasks && c.tasks[id].status.Running? :: DependenciesReady(c.tasks[id], c)
  }

  ghost predicate CommitsKeep(s: Snapshot, commits: seq<Snapshot>) {
    && (forall i | 0 <= i < |commits| :: Keeps(s, commits[i]) && (NoneRunning(s) ==> RunningIsReady(commits[i])))
    && Keeps(s, LastOf(s, commits)) && (NoneRunning(s) ==> NoneRunning(LastOf(s, commits)))
  }

  lemma KeepsTransitive(a: Snapshot, b: Snapshot, c: Snapshot)
    requires Keeps(a, b) && Keeps(b, c)
    ensures Keeps(a, c)
  {
    forall id | Settled(a, id)
      ensures SameRow(a, c, id)
    {
      assert SameRow(a, b, id) && SameRow(b, c, id);
    }
    forall n | |a.jobs| <= n < |c.jobs|
      ensures !Settled(a, c.jobs[n])
    {
      if n < |b.jobs| {
        assert c.jobs[n] == c.jobs[..|b.jobs|][n] == b.jobs[n];
      } else {
        assert Settled(a, c.jobs[n]) ==> SameRow(a, b, c.jobs[n]);
      }
    }
    assert c.jobs[..|a.jobs|] == c.jobs[..|b.jobs|][..|a.jobs|];
  }

  lemma CommitsKeepAppend(s: Snapshot, a: seq<Snapshot>, b: seq<Snapshot>)
    requires CommitsKeep(s, a) && CommitsKeep(LastOf(s, a), b)
    ensures CommitsKeep(s, a + b)
  {
    hide Keeps, NoneRunning, RunningIsReady;
    LastOfAppend(s, a, b);
    var mid := LastOf(s, a);
    forall i | 0 <= i < |b|
      ensures Keeps(s, b[i])
    {
      KeepsTransitive(s, mid, b[i]);
    }
    KeepsTransitive(s, mid, LastOf(mid, b));
  }

  lemma TaskKeeps(def: TaskDef, s: Snapshot, script: TaskScript, n: nat)
    requires n <= |TaskRun(def, s, script).writes|
    ensures Keeps(s, After(s, def.id, TaskRun(def, s, script), n))
    ensures NoneRunning(s) ==> RunningIsReady(After(s, def.id, TaskRun(def, s, script), n))
  {
    hide TaskRun, ShouldSkip;
    var t := TaskRun(def, s, script);
    TaskWritesOk(def, s, script);
    OneRowChanges(s, def.id, t, n);
    var c := After(s, def.id, t, n);
    if NoneRunning(s) {
      forall id | id in c.tasks && c.tasks[id].status.Running?
        ensures DependenciesReady(c.tasks[id], c)
      {
        assert id == def.id && c.tasks[id] == t.writes[n - 1];
        forall d | d in c.tasks[id].dependsOn
          ensures Settled(c, d)
        {
          assert Settled(s, d) && d != def.id;
          SettledBySame(s, c, d);
        }
      }
    }
  }

  lemma TaskCommitsKeep(def: TaskDef, s: Snapshot, script: TaskScript)
    ensures CommitsKeep(s, Commits(s, def.id, TaskRun(def, s, script)))
  {
    hide TaskRun, Keeps, RunningIsReady, After;
    var t := TaskRun(def, s, script);
    LastOfCommits(s, def.id, t);
    forall n: nat | n <= |t.writes| {
      TaskKeeps(def, s, script, n);
    }
    TaskEndsAtRest(def, s, script);
  }

  lemma TaskEndsAtRest(def: TaskDef, s: Snapshot, script: TaskScript)
    ensures NoneRunning(s) ==> NoneRunning(AfterAll(s, def.id, TaskRun(def, s, script)))
  {
    hide TaskRun, Settled;
    var t := TaskRun(def, s, script);
    var e := AfterAll(s, def.id, t);
    TaskOutcomeShows(def, s, script);
    OneRowChanges(s, def.id, t, |t.writes|);
    SettledIsNotRunning(e, def.id);
    forall id | NoneRunning(s) && id in e.tasks
      ensures !e.tasks[id].status.Running?
    {
      if id != def.id {
        assert SameRow(s, e, id);
      }
    }
  }

  lemma SettledIsNotRunning(s: Snapshot, id: string)
    ensures Settled(s, id) ==> id in s.tasks && !s.tasks[id].status.Running?
  {
  }

  lemma KeepsItself(s: Snapshot)
    ensures CommitsKeep(s, [])
  {
  }

  lemma {:induction false} LoopKeeps(defs: seq<TaskDef>, s: Snapshot, scripts: Scripts)
    ensures CommitsKeep(s, Loop(defs, s, scripts).commits)
  {
    hide TaskRun, After, Keeps, NoneRunning, RunningIsReady, CommitsKeep;
    if defs == [] {
      KeepsItself(s);
    } else {
      var first, mid := LoopStep(defs, s, scripts);
      TaskCommitsKeep(defs[0], s, scripts(defs[0].id));
      LastOfCommits(s, defs[0].id, first);
      if !Stops(first.outcome) {
        LoopKeeps(defs[1..], mid, scripts);
        CommitsKeepAppend(s, Commits(s, defs[0].id, first), Loop(defs[1..], mid, scripts).commits);
      }
    }
  }

  /** Changing only the run's own row keeps everything. */
  lemma RunRowChangeKeeps(s: Snapshot, run: RunRow)
    requires run.params == s.run.params
    ensures CommitsKeep(s, [s.(run := run)])
  {
  }

  lemma OpKeeps(defs: seq<TaskDef>, s: Snapshot, op: Op)
    ensures CommitsKeep(s, OpCommits(defs, s, op))
  {
    hide CommitsKeep, Loop, InOrder, BuiltResult, Listed;
    KeepsItself(s);
    match op
    case Queue => RunRowChangeKeeps(s, s.run.(status := RunStatus.Queued));
    case Execute(scripts) =>
      if Startable(s.run.status) {
        var ordered := InOrder(defs);
        var t := Loop(ordered, Started(s), scripts);
        var e := LastOf(Started(s), t.commits);
        RunRowChangeKeeps(s, Started(s).run);
        LoopKeeps(ordered, Started(s), scripts);
        CommitsKeepAppend(s, [Started(s)], t.commits);
        LoopLeavesRun(ordered, Started(s), scripts);
        RunRowChangeKeeps(e, Finished(e, ordered, t.stop).run);
        LastOfAppend(s, [Started(s)], t.commits);
        CommitsKeepAppend(s, [Started(s)] + t.commits, [Finished(e, ordered, t.stop)]);
      }
  }

  lemma {:induction false} LoopLeavesRun(defs: seq<TaskDef>, s: Snapshot, scripts: Scripts)
    ensures LastOf(s, Loop(defs, s, scripts).commits).run == s.run
  {
    hide TaskRun;
    if defs != [] {
      var first, mid := LoopStep(defs, s, scripts);
      OneRowChanges(s, defs[0].id, first, |first.writes|);
      if !Stops(first.outcome) {
        LoopLeavesRun(defs[1..], mid, scripts);
      }
    }
  }

  /** Over any sequence of runs and queuings, every commit keeps the rows settled at
      the start and creates no job for them; and if no task was running at the start,
      every running task's dependencies are settled in every commit. */
  lemma {:induction false} HistoryKeeps(defs: seq<TaskDef>, s: Snapshot, ops: seq<Op>)
    ensures CommitsKeep(s, History(defs, s, ops))
    decreases |ops|
  {
    hide CommitsKeep, OpCommits;
    KeepsItself(s);
    if |ops| > 0 {
      var first := OpCommits(defs, s, ops[0]);
      OpKeeps(defs, s, ops[0]);
      HistoryKeeps(defs, LastOf(s, first), ops[1..]);
      CommitsKeepAppend(s, first, History(defs, LastOf(s, first), ops[1..]));
    }
  }

  lemma {:induction false} FreshRowsPending(defs: seq<TaskDef>, params: Dict)
    ensures forall id | id in FreshRows(defs, params) :: FreshRows(defs, params)[id].status.Pending?
  {
    if defs != [] {
      FreshRowsPending(defs[..|defs| - 1], params);
    }
  }

  /** However often a created run is executed and queued, every commit that shows a
      task running shows all its dependencies settled. */
  lemma RunningTasksAreReady(defs: seq<TaskDef>, params: Dict, ops: seq<Op>)
    ensures forall c | c in History(defs, Created(defs, params), ops) :: RunningIsReady(c)
  {
    hide RunningIsReady, Keeps, History;
    FreshRowsPending(InOrder(defs), params);
    HistoryKeeps(defs, Created(defs, params), ops);
  }
}
