/** Any number of workers and API dispatches interleaving over one job table.

    Each action is one store operation together with its commit, which is what
    other processes can observe. A store operation may fail before it takes
    effect, or after it has been committed. Queuing a job again is one atomic
    action. */
module JobProtocol {
  import opened Prelude
  import opened Json
  import opened JobRecords

  /** Job ids are only compared and generated. */
  type JobId = nat

  /** How a store operation ends. */
  datatype Fault = NoFault | LostBefore | LostAfter

  /** Where a worker stands between two of its commits. */
  datatype Phase =
    | Claimed        // the claim is committed, the lock event is not
    | Locked         // about to save the running row
    | Started        // the running row is saved, its event is not
    | Stepping       // the step event is pending
    | Handling       // inside the handler
    | Completing     // about to save the success
    | Completed      // the success is saved, its events are pending
    | Failing        // about to save the failure
    | Closing        // the failure is saved, its events are pending

  /** A worker and the copy of the row it holds. */
  datatype Worker = Worker(jobId: JobId, name: string, phase: Phase, local: Row, result: Dict)

  datatype Event =
    | ClaimWon(jobId: JobId)
    | FailureSaved(jobId: JobId)
    | QueuedAgain(jobId: JobId)

  datatype System = System(jobs: map<JobId, Row>, workers: map<nat, Worker>, history: seq<Event>)

  datatype Action =
    | CreateJob(jobId: JobId, steps: seq<Step>)
    | Requeue(jobId: JobId)
    | Claim(w: nat, jobId: JobId, name: string, fault: Fault)
    | AppendLockEvent(w: nat, ok: bool)
    | SaveRunning(w: nat, fault: Fault)
    | AppendStartedEvent(w: nat, ok: bool)
    | AppendStepEvent(w: nat, ok: bool)
    | RunHandler(w: nat, outcome: Option<Dict>)
    | SaveSuccess(w: nat, fault: Fault)
    | AppendSuccessEvents(w: nat, ok: bool)
    | SaveFailure(w: nat, error: string, fault: Fault)
    | AppendFailureEvents(w: nat)

  function InitialSystem(): System {
    System(map[], map[], [])
  }

  predicate InPhase(s: System, w: nat, phase: Phase) {
    w in s.workers && s.workers[w].phase == phase && s.workers[w].jobId in s.jobs
  }

  function MoveTo(s: System, w: nat, phase: Phase): System
    requires w in s.workers
  {
    s.(workers := s.workers[w := s.workers[w].(phase := phase)])
  }

  function Leave(s: System, w: nat): System {
    s.(workers := s.workers - {w})
  }

  /** Changes the worker's copy of the row, then saves it unless the operation is
      lost first; a lost operation sends the worker to `onFault`. */
  function SaveLocal(s: System, w: nat, row: Row, fault: Fault, next: Phase, onFault: Phase): System
    requires w in s.workers
  {
    var worker := s.workers[w];
    System(
      if fault.LostBefore? then s.jobs else s.jobs[worker.jobId := row],
      s.workers[w := worker.(local := row, phase := if fault.NoFault? then next else onFault)],
      s.history)
  }

  /** The effect of an action, or nothing when it cannot happen now. */
  function Apply(s: System, a: Action): Option<System> {
    match a
    case CreateJob(j, steps) =>
      if j in s.jobs || exists i | 0 <= i < |steps| :: !steps[i].status.StepPending? then None
      else Some(s.(jobs := s.jobs[j := Row(Pending, steps, None, None, None)]))
    case Requeue(j) =>
      if j !in s.jobs || Unqueueable(s.jobs[j].status) then None
      else Some(s.(jobs := s.jobs[j := QueuedRow(s.jobs[j])], history := s.history + [QueuedAgain(j)]))
    case Claim(w, j, name, fault) =>
      if w in s.workers || j !in s.jobs || !Runnable(s.jobs[j].status) || fault.LostBefore? then None
      else
        var row := ClaimedRow(s.jobs[j], name);
        var jobs := s.jobs[j := row];
        if fault.LostAfter? then Some(s.(jobs := jobs))
        else Some(System(jobs, s.workers[w := Worker(j, name, Claimed, row, map[])], s.history + [ClaimWon(j)]))
    case AppendLockEvent(w, ok) =>
      if !InPhase(s, w, Claimed) then None
      else Some(if ok then MoveTo(s, w, Locked) else Leave(s, w))
    case SaveRunning(w, fault) =>
      if !InPhase(s, w, Locked) then None
      else Some(SaveLocal(s, w, RunningRow(s.workers[w].local, s.workers[w].name), fault, Started, Failing))
    case AppendStartedEvent(w, ok) =>
      if !InPhase(s, w, Started) then None
      else Some(MoveTo(s, w, if ok then Stepping else Failing))
    case AppendStepEvent(w, ok) =>
      if !InPhase(s, w, Stepping) then None
      else Some(MoveTo(s, w, if ok then Handling else Failing))
    case RunHandler(w, outcome) =>
      if !InPhase(s, w, Handling) then None
      else if outcome.None? then Some(MoveTo(s, w, Failing))
      else
        Some(s.(workers := s.workers[w := s.workers[w].(phase := Completing, result := outcome.value)]))
    case SaveSuccess(w, fault) =>
      if !InPhase(s, w, Completing) then None
      else Some(SaveLocal(s, w, SucceededRow(s.workers[w].local, s.workers[w].result), fault, Completed, Failing))
    case AppendSuccessEvents(w, ok) =>
      if !InPhase(s, w, Completed) then None
      else Some(if ok then Leave(s, w) else MoveTo(s, w, Failing))
    case SaveFailure(w, error, fault) =>
      if !InPhase(s, w, Failing) then None
      else
        var saved := SaveLocal(s, w, FailedRow(s.workers[w].local, error), fault, Closing, Closing);
        var logged :=
          if fault.LostBefore? then saved
          else saved.(history := s.history + [FailureSaved(s.workers[w].jobId)]);
        Some(if fault.NoFault? then logged else Leave(logged, w))
    case AppendFailureEvents(w) =>
      if !InPhase(s, w, Closing) then None
      else Some(Leave(s, w))
  }

  /** The state after a whole run of actions from `s`, if all of them can happen. */
  function RunFrom(s: System, actions: seq<Action>): Option<System> {
    if actions == [] then Some(s)
    else
      match RunFrom(s, actions[..|actions| - 1])
      case None => None
      case Some(t) => Apply(t, actions[|actions| - 1])
  }

  // ---- ownership ----

  /** Between a won claim and the worker's last save of the job. */
  predicate Owns(worker: Worker) {
    !worker.phase.Closing?
  }

  /** The worker's copy is what the table holds. */
  predicate InStep(phase: Phase) {
    !phase.Failing? && !phase.Closing?
  }

  ghost predicate WorkerOk(s: System, w: nat)
    requires w in s.workers
  {
    var worker := s.workers[w];
    && worker.jobId in s.jobs
    && RunningCount(worker.local.steps) <= 1
    && (worker.phase.Claimed? || worker.phase.Locked? ==> RunningCount(worker.local.steps) == 0)
    && (Owns(worker) ==>
          var status := s.jobs[worker.jobId].status;
          && (status.Running? || status.Succeeded?)
          && (InStep(worker.phase) ==> worker.local == s.jobs[worker.jobId])
          && (worker.phase.Completed? ==> status.Succeeded? && s.jobs[worker.jobId].result == Some(worker.result))
          && (InStep(worker.phase) && !worker.phase.Completed? ==> status.Running?))
  }

  /** No two workers own the same job. */
  ghost predicate Exclusive(s: System) {
    forall v, w | v in s.workers && w in s.workers && v != w && Owns(s.workers[v]) && Owns(s.workers[w]) ::
      s.workers[v].jobId != s.workers[w].jobId
  }

  ghost predicate FailedSince(h: seq<Event>, j: JobId, i: int) {
    exists m :: i < m < |h| && 0 <= m && h[m] == FailureSaved(j)
  }

  ghost predicate ReleasedSince(h: seq<Event>, j: JobId, i: int) {
    exists m, n :: i < m < n < |h| && 0 <= m && h[m] == FailureSaved(j) && h[n] == QueuedAgain(j)
  }

  /** What the history of a job says about its status. */
  ghost predicate HistoryOk(s: System, j: JobId)
    requires j in s.jobs
  {
    forall i | 0 <= i < |s.history| && s.history[i] == ClaimWon(j) ::
      && (s.jobs[j].status.Failed? ==> FailedSince(s.history, j, i))
      && (!Unqueueable(s.jobs[j].status) && !s.jobs[j].status.Failed? ==> ReleasedSince(s.history, j, i))
  }

  /** Between two won claims of a job there is a committed failure and then a
      queuing. */
  ghost predicate ClaimsSeparated(h: seq<Event>) {
    forall i, k | 0 <= i < k < |h| && h[i].ClaimWon? && h[k] == h[i] ::
      exists m, n :: i < m < n < k && h[m] == FailureSaved(h[i].jobId) && h[n] == QueuedAgain(h[i].jobId)
  }

  ghost predicate Inv(s: System) {
    && (forall j | j in s.jobs :: Orderly(s.jobs[j]) && HistoryOk(s, j))
    && (forall w | w in s.workers :: WorkerOk(s, w))
    && (forall i | 0 <= i < |s.history| && s.history[i].ClaimWon? :: s.history[i].jobId in s.jobs)
    && Exclusive(s)
    && ClaimsSeparated(s.history)
  }

  // ---- the invariant is inductive ----

  lemma SinceGrows(h: seq<Event>, e: Event, j: JobId, i: int)
    ensures FailedSince(h, j, i) ==> FailedSince(h + [e], j, i)
    ensures ReleasedSince(h, j, i) ==> ReleasedSince(h + [e], j, i)
  {
    if FailedSince(h, j, i) {
      var m :| i < m < |h| && 0 <= m && h[m] == FailureSaved(j);
      assert (h + [e])[m] == FailureSaved(j);
    }
    if ReleasedSince(h, j, i) {
      var m, n :| i < m < n < |h| && 0 <= m && h[m] == FailureSaved(j) && h[n] == QueuedAgain(j);
      assert (h + [e])[m] == FailureSaved(j) && (h + [e])[n] == QueuedAgain(j);
    }
  }

  lemma SeparatedGrows(h: seq<Event>, e: Event)
    requires ClaimsSeparated(h)
    requires e.ClaimWon? ==> forall i | 0 <= i < |h| && h[i] == e :: ReleasedSince(h, e.jobId, i)
    ensures ClaimsSeparated(h + [e])
  {
    var g := h + [e];
    forall i, k | 0 <= i < k < |g| && g[i].ClaimWon? && g[k] == g[i]
      ensures exists m, n :: i < m < n < k && g[m] == FailureSaved(g[i].jobId) && g[n] == QueuedAgain(g[i].jobId)
    {
      if k < |h| {
        assert h[i] == g[i] && h[k] == g[k];
        var m, n :| i < m < n < k && h[m] == FailureSaved(h[i].jobId) && h[n] == QueuedAgain(h[i].jobId);
        assert g[m] == h[m] && g[n] == h[n];
      } else {
        assert h[i] == e && ReleasedSince(h, e.jobId, i);
        var m, n :| i < m < n < |h| && 0 <= m && h[m] == FailureSaved(e.jobId) && h[n] == QueuedAgain(e.jobId);
        assert g[m] == h[m] && g[n] == h[n];
      }
    }
  }

  /** A history that grows by an event other than a claim keeps what it says about
      a job whose status did not change. */
  lemma HistoryGrows(s: System, j: JobId, e: Event, t: System)
    requires j in s.jobs && j in t.jobs && HistoryOk(s, j)
    requires t.history == s.history + [e] && e != ClaimWon(j)
    requires t.jobs[j].status == s.jobs[j].status
    ensures HistoryOk(t, j)
  {
    hide FailedSince, ReleasedSince;
    forall i | 0 <= i < |t.history| && t.history[i] == ClaimWon(j)
      ensures t.jobs[j].status.Failed? ==> FailedSince(t.history, j, i)
      ensures !Unqueueable(t.jobs[j].status) && !t.jobs[j].status.Failed? ==> ReleasedSince(t.history, j, i)
    {
      assert s.history[i] == ClaimWon(j);
      SinceGrows(s.history, e, j, i);
    }
  }

  /** Moving a worker on without touching the table. */
  lemma MoveKeepsInv(s: System, w: nat, worker: Worker)
    requires Inv(s) && w in s.workers && worker.jobId == s.workers[w].jobId
    requires Owns(worker) ==> Owns(s.workers[w])
    requires WorkerOk(s.(workers := s.workers[w := worker]), w)
    ensures Inv(s.(workers := s.workers[w := worker]))
  {
    var t := s.(workers := s.workers[w := worker]);
    forall v | v in t.workers ensures WorkerOk(t, v) {
      if v != w {
        assert WorkerOk(s, v);
      }
    }
    forall j | j in t.jobs ensures HistoryOk(t, j) {
      assert HistoryOk(s, j);
    }
  }

  lemma LeaveKeepsInv(s: System, w: nat)
    requires Inv(s)
    ensures Inv(Leave(s, w))
  {
    var t := Leave(s, w);
    forall v | v in t.workers ensures WorkerOk(t, v) {
      assert WorkerOk(s, v);
    }
    forall j | j in t.jobs ensures HistoryOk(t, j) {
      assert HistoryOk(s, j);
    }
  }

  /** An owner that rewrites its own row: the other workers and jobs are untouched. */
  lemma SaveKeepsInv(s: System, w: nat, t: System)
    requires Inv(s) && w in s.workers && Owns(s.workers[w])
    requires w in t.workers && t.workers == s.workers[w := t.workers[w]]
    requires t.workers[w].jobId == s.workers[w].jobId
    requires t.workers[w].jobId in t.jobs && t.jobs == s.jobs[t.workers[w].jobId := t.jobs[t.workers[w].jobId]]
    requires WorkerOk(t, w)
    requires Orderly(t.jobs[t.workers[w].jobId]) && HistoryOk(t, t.workers[w].jobId)
    requires t.history == s.history || t.history == s.history + [FailureSaved(t.workers[w].jobId)]
    ensures Inv(t)
  {
    hide RunningCount, FailedSince, ReleasedSince;
    var own := t.workers[w].jobId;
    forall v | v in t.workers ensures WorkerOk(t, v) {
      if v != w {
        assert WorkerOk(s, v);
        assert Owns(s.workers[v]) ==> s.workers[v].jobId != own;
      }
    }
    forall j | j in t.jobs ensures Orderly(t.jobs[j]) && HistoryOk(t, j) {
      if j != own {
        assert HistoryOk(s, j);
        if t.history != s.history {
          HistoryGrows(s, j, FailureSaved(own), t);
        }
      }
    }
    if t.history != s.history {
      SeparatedGrows(s.history, FailureSaved(own));
      assert forall i | 0 <= i < |t.history| && t.history[i].ClaimWon? :: t.history[i] == s.history[i];
    }
  }

  lemma CreateKeepsInv(s: System, j: JobId, steps: seq<Step>)
    requires Inv(s) && Apply(s, CreateJob(j, steps)).Some?
    ensures Inv(Apply(s, CreateJob(j, steps)).value)
  {
    var t := Apply(s, CreateJob(j, steps)).value;
    NoneRunning(steps);
    forall w | w in t.workers ensures WorkerOk(t, w) {
      assert WorkerOk(s, w);
    }
    forall k | k in t.jobs ensures Orderly(t.jobs[k]) && HistoryOk(t, k) {
      if k != j {
        assert HistoryOk(s, k);
      }
    }
  }

  lemma RequeueKeepsInv(s: System, j: JobId)
    requires Inv(s) && Apply(s, Requeue(j)).Some?
    ensures Inv(Apply(s, Requeue(j)).value)
  {
    hide FailedSince, ReleasedSince;
    var t := Apply(s, Requeue(j)).value;
    forall w | w in t.workers ensures WorkerOk(t, w) {
      assert WorkerOk(s, w);
    }
    forall k | k in t.jobs ensures Orderly(t.jobs[k]) && HistoryOk(t, k) {
      assert HistoryOk(s, k);
      if k != j {
        HistoryGrows(s, k, QueuedAgain(j), t);
      } else {
        RequeueReleases(s, j);
      }
    }
    SeparatedGrows(s.history, QueuedAgain(j));
    assert forall i | 0 <= i < |t.history| && t.history[i].ClaimWon? :: t.history[i] == s.history[i];
  }

  lemma RequeueReleases(s: System, j: JobId)
    requires j in s.jobs && HistoryOk(s, j) && !Unqueueable(s.jobs[j].status)
    ensures
      forall i | 0 <= i < |s.history| && s.history[i] == ClaimWon(j) ::
        ReleasedSince(s.history + [QueuedAgain(j)], j, i)
  {
    var h := s.history + [QueuedAgain(j)];
    forall i | 0 <= i < |s.history| && s.history[i] == ClaimWon(j) ensures ReleasedSince(h, j, i) {
      if s.jobs[j].status.Failed? {
        var m :| i < m < |s.history| && 0 <= m && s.history[m] == FailureSaved(j);
        assert h[m] == FailureSaved(j) && h[|s.history|] == QueuedAgain(j);
      } else {
        SinceGrows(s.history, QueuedAgain(j), j, i);
      }
    }
  }

  lemma ClaimKeepsInv(s: System, w: nat, j: JobId, name: string, fault: Fault)
    requires Inv(s) && Apply(s, Claim(w, j, name, fault)).Some?
    ensures Inv(Apply(s, Claim(w, j, name, fault)).value)
  {
    hide RunningCount, FailedSince, ReleasedSince;
    var t := Apply(s, Claim(w, j, name, fault)).value;
    forall v | v in t.workers ensures WorkerOk(t, v) {
      if v in s.workers {
        assert WorkerOk(s, v);
      }
    }
    assert HistoryOk(s, j);
    forall k | k in t.jobs ensures Orderly(t.jobs[k]) && HistoryOk(t, k) {
      assert HistoryOk(s, k);
      if k != j && fault.NoFault? {
        HistoryGrows(s, k, ClaimWon(j), t);
      }
    }
    if fault.NoFault? {
      SeparatedGrows(s.history, ClaimWon(j));
      forall i | 0 <= i < |t.history| && t.history[i].ClaimWon? ensures t.history[i].jobId in t.jobs {
        if i < |s.history| {
          assert t.history[i] == s.history[i];
        }
      }
    }
  }

  lemma SaveFailureKeepsInv(s: System, w: nat, error: string, fault: Fault)
    requires Inv(s) && Apply(s, SaveFailure(w, error, fault)).Some?
    ensures Inv(Apply(s, SaveFailure(w, error, fault)).value)
  {
    hide RunningCount;
    var worker := s.workers[w];
    assert WorkerOk(s, w);
    var j, row := worker.jobId, FailedRow(worker.local, error);
    TransitionsStayOrderly(worker.local, worker.name, worker.result, error);
    var saved := SaveLocal(s, w, row, fault, Closing, Closing);
    var t := if fault.LostBefore? then saved else saved.(history := s.history + [FailureSaved(j)]);
    assert HistoryOk(s, j);
    if !fault.LostBefore? {
      FailureIsRecorded(s.history, j);
    }
    SaveKeepsInv(s, w, t);
    LeaveKeepsInv(t, w);
  }

  lemma FailureIsRecorded(h: seq<Event>, j: JobId)
    ensures forall i | 0 <= i < |h| :: FailedSince(h + [FailureSaved(j)], j, i)
  {
    assert (h + [FailureSaved(j)])[|h|] == FailureSaved(j);
  }

  lemma SaveRunningKeepsInv(s: System, w: nat, fault: Fault)
    requires Inv(s) && Apply(s, SaveRunning(w, fault)).Some?
    ensures Inv(Apply(s, SaveRunning(w, fault)).value)
  {
    hide RunningCount;
    var worker := s.workers[w];
    assert WorkerOk(s, w) && HistoryOk(s, worker.jobId);
    TransitionsStayOrderly(worker.local, worker.name, worker.result, "");
    SaveKeepsInv(s, w, Apply(s, SaveRunning(w, fault)).value);
  }

  lemma SaveSuccessKeepsInv(s: System, w: nat, fault: Fault)
    requires Inv(s) && Apply(s, SaveSuccess(w, fault)).Some?
    ensures Inv(Apply(s, SaveSuccess(w, fault)).value)
  {
    hide RunningCount;
    var worker := s.workers[w];
    assert WorkerOk(s, w) && HistoryOk(s, worker.jobId);
    TransitionsStayOrderly(worker.local, worker.name, worker.result, "");
    SaveKeepsInv(s, w, Apply(s, SaveSuccess(w, fault)).value);
  }

  lemma ActionKeepsInv(s: System, a: Action)
    requires Inv(s) && Apply(s, a).Some?
    ensures Inv(Apply(s, a).value)
  {
    hide Inv, RunningCount, HistoryOk, ClaimsSeparated, Exclusive;
    match a
    case CreateJob(j, steps) => CreateKeepsInv(s, j, steps);
    case Requeue(j) => RequeueKeepsInv(s, j);
    case Claim(w, j, name, fault) => ClaimKeepsInv(s, w, j, name, fault);
    case SaveRunning(w, fault) => SaveRunningKeepsInv(s, w, fault);
    case SaveSuccess(w, fault) => SaveSuccessKeepsInv(s, w, fault);
    case SaveFailure(w, error, fault) => SaveFailureKeepsInv(s, w, error, fault);
    case AppendFailureEvents(w) => LeaveKeepsInv(s, w);
    case AppendLockEvent(w, ok) => MoveOrLeaveKeepsInv(s, w, a);
    case AppendStartedEvent(w, ok) => MoveOrLeaveKeepsInv(s, w, a);
    case AppendStepEvent(w, ok) => MoveOrLeaveKeepsInv(s, w, a);
    case RunHandler(w, outcome) => MoveOrLeaveKeepsInv(s, w, a);
    case AppendSuccessEvents(w, ok) => MoveOrLeaveKeepsInv(s, w, a);
  }

  lemma MoveOrLeaveKeepsInv(s: System, w: nat, a: Action)
    requires Inv(s) && Apply(s, a).Some?
    requires
      || (a.AppendLockEvent? && a.w == w) || (a.AppendStartedEvent? && a.w == w) || (a.AppendStepEvent? && a.w == w)
      || (a.RunHandler? && a.w == w) || (a.AppendSuccessEvents? && a.w == w)
    ensures Inv(Apply(s, a).value)
  {
    hide RunningCount, HistoryOk, ClaimsSeparated, Exclusive;
    var t := Apply(s, a).value;
    assert WorkerOk(s, w);
    if w in t.workers {
      assert t == s.(workers := s.workers[w := t.workers[w]]);
      MoveKeepsInv(s, w, t.workers[w]);
    } else {
      LeaveKeepsInv(s, w);
    }
  }

  lemma {:induction false} RunsKeepInv(s: System, actions: seq<Action>)
    requires Inv(s) && RunFrom(s, actions).Some?
    ensures Inv(RunFrom(s, actions).value)
  {
    hide Inv, Apply;
    if actions != [] {
      var front := actions[..|actions| - 1];
      RunsKeepInv(s, front);
      ActionKeepsInv(RunFrom(s, front).value, actions[|actions| - 1]);
    }
  }

  ghost predicate Reachable(s: System) {
    exists actions :: RunFrom(InitialSystem(), actions) == Some(s)
  }

  lemma ReachableInv(s: System)
    requires Reachable(s)
    ensures Inv(s)
  {
    hide Inv;
    var actions :| RunFrom(InitialSystem(), actions) == Some(s);
    InitialInv();
    RunsKeepInv(InitialSystem(), actions);
  }

  lemma InitialInv()
    ensures Inv(InitialSystem())
  {
  }

  // ---- the protocol's promises ----

  /** In every reachable state no two workers own the same job, and every two won
      claims of a job have a committed failure and a later queuing between them. */
  lemma OwnershipIsExclusive(s: System)
    requires Reachable(s)
    ensures Exclusive(s)
    ensures ClaimsSeparated(s.history)
  {
    ReachableInv(s);
  }

  /** In every reachable state every row has at most one running step, and none
      when the job is not running; so ending the first running step, as success
      does, is the same as ending all of them, as failure does. */
  lemma RowsStayOrderly(s: System, j: JobId)
    requires Reachable(s) && j in s.jobs
    ensures Orderly(s.jobs[j])
    ensures EndFirstRunning(s.jobs[j].steps, StepSucceeded) == EndAllRunning(s.jobs[j].steps, StepSucceeded)
  {
    ReachableInv(s);
    FirstIsAll(s.jobs[j].steps, StepSucceeded);
  }

  /** A worker whose run returns without an error leaves a succeeded row that
      carries the handler's result. */
  lemma ReturnMeansSucceeded(s: System, w: nat)
    requires Reachable(s) && Apply(s, AppendSuccessEvents(w, true)).Some?
    ensures
      var row := s.jobs[s.workers[w].jobId];
      row.status.Succeeded? && row.result == Some(s.workers[w].result) && row == s.workers[w].local
  {
    ReachableInv(s);
    assert WorkerOk(s, w);
  }

  /** While a job is owned, only its owner changes its row. */
  lemma OwnedRowIsPrivate(s: System, w: nat, a: Action)
    requires Reachable(s) && w in s.workers && Owns(s.workers[w])
    requires Apply(s, a).Some?
    ensures
      var j, t := s.workers[w].jobId, Apply(s, a).value;
      && j in s.jobs && j in t.jobs
      && (t.jobs[j] != s.jobs[j] ==>
            (a.SaveRunning? && a.w == w) || (a.SaveSuccess? && a.w == w) || (a.SaveFailure? && a.w == w))
  {
    hide RunningRow, SucceededRow, FailedRow, ClaimedRow, RunningCount, HistoryOk, ClaimsSeparated;
    ReachableInv(s);
    assert WorkerOk(s, w);
    if a.SaveRunning? || a.SaveSuccess? || a.SaveFailure? {
      assert WorkerOk(s, a.w);
    }
  }

  // ---- limits of the protocol ----

  ghost predicate Owned(s: System, j: JobId) {
    exists w :: w in s.workers && Owns(s.workers[w]) && s.workers[w].jobId == j
  }

  /** Running in the table, but nobody owns it. */
  ghost predicate Abandoned(s: System, j: JobId) {
    j in s.jobs && s.jobs[j].status.Running? && !Owned(s, j)
  }

  /** A job abandoned while running stays so whatever happens: no worker can claim
      it and no dispatch can queue it. */
  lemma {:induction false} AbandonedForever(s: System, j: JobId, actions: seq<Action>)
    requires Abandoned(s, j) && RunFrom(s, actions).Some?
    ensures Abandoned(RunFrom(s, actions).value, j)
    ensures RunFrom(s, actions).value.jobs[j] == s.jobs[j]
  {
    hide Abandoned, Apply;
    if actions != [] {
      var front := actions[..|actions| - 1];
      AbandonedForever(s, j, front);
      AbandonedStep(RunFrom(s, front).value, j, actions[|actions| - 1]);
    }
  }

  lemma AbandonedStep(s: System, j: JobId, a: Action)
    requires Abandoned(s, j) && Apply(s, a).Some?
    ensures Abandoned(Apply(s, a).value, j) && Apply(s, a).value.jobs[j] == s.jobs[j]
  {
    hide RunningRow, SucceededRow, FailedRow, ClaimedRow;
    UnownedStep(s, j, a);
  }

  /** A row that nobody owns and that can be neither claimed nor queued never changes,
      and stays unowned. */
  lemma UnownedStep(s: System, j: JobId, a: Action)
    requires j in s.jobs && !Owned(s, j) && Unqueueable(s.jobs[j].status) && Apply(s, a).Some?
    ensures
      var t := Apply(s, a).value;
      j in t.jobs && t.jobs[j] == s.jobs[j] && !Owned(t, j)
  {
    hide RunningRow, SucceededRow, FailedRow, ClaimedRow;
    if a.SaveRunning? || a.SaveSuccess? || a.SaveFailure? {
      assert Owns(s.workers[a.w]);
    }
    if Owned(Apply(s, a).value, j) {
      OwnersStem(s, j, a);
    }
  }

  /** Only a won claim gives a job an owner. */
  lemma OwnersStem(s: System, j: JobId, a: Action)
    requires Apply(s, a).Some? && Owned(Apply(s, a).value, j)
    ensures Owned(s, j) || (a.Claim? && a.jobId == j && j in s.jobs && Runnable(s.jobs[j].status))
  {
    hide RunningRow, SucceededRow, FailedRow, ClaimedRow;
  }

  lemma RunOne(s: System, actions: seq<Action>, a: Action)
    requires RunFrom(s, actions).Some?
    ensures RunFrom(s, actions + [a]) == Apply(RunFrom(s, actions).value, a)
  {
    hide Apply;
    assert (actions + [a])[..|actions|] == actions;
  }

  /** It can happen: the lock event is appended after the claim is committed, and
      outside the part that records failures. */
  lemma LostLockEventAbandons(j: JobId) returns (s: System)
    ensures Reachable(s) && Abandoned(s, j)
  {
    hide Apply;
    ClaimThenLose(j);
    var start := InitialSystem();
    var a, b, c := CreateJob(j, []), Claim(0, j, "worker", NoFault), AppendLockEvent(0, false);
    RunOne(start, [], a);
    RunOne(start, [a], b);
    RunOne(start, [a, b], c);
    assert [] + [a] == [a] && [a] + [b] == [a, b] && [a, b] + [c] == [a, b, c];
    s := RunFrom(start, [a, b, c]).value;
    assert RunFrom(start, [a, b, c]) == Some(s);
  }

  lemma ClaimThenLose(j: JobId)
    ensures
      var created := Apply(InitialSystem(), CreateJob(j, []));
      && created.Some?
      && var claimed := Apply(created.value, Claim(0, j, "worker", NoFault));
         && claimed.Some?
         && var lost := Apply(claimed.value, AppendLockEvent(0, false));
            lost.Some? && lost.value.workers == map[] && j in lost.value.jobs && lost.value.jobs[j].status.Running?
  {
  }

  /** Exactly when an action abandons a job: the claim is committed but its reply is
      lost, the lock event is lost, or the failure of a job that is still running
      cannot be saved. */
  lemma AbandonsIff(s: System, a: Action, j: JobId)
    requires Reachable(s) && Apply(s, a).Some? && j in s.jobs && !Abandoned(s, j)
    ensures Abandoned(Apply(s, a).value, j) <==>
      || (a.Claim? && a.jobId == j && a.fault.LostAfter?)
      || (a.AppendLockEvent? && !a.ok && s.workers[a.w].jobId == j)
      || (a.SaveFailure? && a.fault.LostBefore? && s.workers[a.w].jobId == j && s.jobs[j].status.Running?)
  {
    hide HistoryOk, ClaimsSeparated, RunningCount, Orderly, Inv, OwnersApart, Reachable;
    hide StartFirstPending, EndFirstRunning, EndAllRunning;
    ReachableOwners(s);
    if Owned(s, j) {
      var v :| v in s.workers && Owns(s.workers[v]) && s.workers[v].jobId == j;
      OwnerActs(s, a, v);
      SoleOwner(s, v, v);
      if a.AppendLockEvent? || a.AppendSuccessEvents? || a.SaveFailure? {
        SoleOwner(s, v, a.w);
      }
    } else {
      if Owned(Apply(s, a).value, j) {
        OwnersStem(s, j, a);
      }
      if a.Claim? && a.fault.NoFault? {
        assert Owns(Apply(s, a).value.workers[a.w]);
      } else if a.SaveRunning? || a.SaveSuccess? || a.SaveFailure? || a.AppendLockEvent? {
        assert Owns(s.workers[a.w]);
      }
    }
  }

  lemma SoleOwner(s: System, v: nat, w: nat)
    requires OwnersApart(s) && v in s.workers && Owns(s.workers[v]) && w in s.workers && Owns(s.workers[w])
    ensures s.workers[v].jobId == s.workers[w].jobId ==> v == w
    ensures
      var j := s.workers[v].jobId;
      j in s.jobs && (s.jobs[j].status.Running? || s.jobs[j].status.Succeeded?)
  {
  }

  /** A job stays owned until its owner leaves or goes on to fail it. */
  lemma OwnerActs(s: System, a: Action, v: nat)
    requires OwnersApart(s) && Apply(s, a).Some? && v in s.workers && Owns(s.workers[v])
    ensures Owned(Apply(s, a).value, s.workers[v].jobId) <==>
      !((a.AppendLockEvent? && a.w == v && !a.ok) || (a.AppendSuccessEvents? && a.w == v && a.ok)
        || (a.SaveFailure? && a.w == v))
  {
    hide RunningRow, SucceededRow, FailedRow, ClaimedRow;
    var t := Apply(s, a).value;
    if v in t.workers && Owns(t.workers[v]) {
      assert t.workers[v].jobId == s.workers[v].jobId;
    } else {
      forall w | w in t.workers && Owns(t.workers[w])
        ensures t.workers[w].jobId != s.workers[v].jobId
      {
        assert w in s.workers && Owns(s.workers[w]) && w != v;
      }
    }
  }

  /** What the invariant says of owners. */
  ghost predicate OwnersApart(s: System) {
    && Exclusive(s)
    && forall w | w in s.workers ::
         && s.workers[w].jobId in s.jobs
         && (Owns(s.workers[w]) ==>
               s.jobs[s.workers[w].jobId].status.Running? || s.jobs[s.workers[w].jobId].status.Succeeded?)
  }

  lemma ReachableOwners(s: System)
    requires Reachable(s)
    ensures OwnersApart(s)
    ensures forall w | w in s.workers ::
      && (s.workers[w].phase.Claimed? ==> s.jobs[s.workers[w].jobId].status.Running?)
      && (s.workers[w].phase.Completed? ==> s.jobs[s.workers[w].jobId].status.Succeeded?)
  {
    hide HistoryOk, ClaimsSeparated, RunningCount, Orderly;
    ReachableInv(s);
    assert forall w | w in s.workers :: WorkerOk(s, w);
  }

  /** A success that nobody owns is final, whatever happens. */
  lemma {:induction false} UnownedSuccessIsFinal(s: System, j: JobId, actions: seq<Action>)
    requires j in s.jobs && s.jobs[j].status.Succeeded? && !Owned(s, j) && RunFrom(s, actions).Some?
    ensures
      var t := RunFrom(s, actions).value;
      j in t.jobs && t.jobs[j] == s.jobs[j] && !Owned(t, j)
  {
    hide Apply, Owned;
    if actions != [] {
      var front := actions[..|actions| - 1];
      UnownedSuccessIsFinal(s, j, front);
      UnownedStep(RunFrom(s, front).value, j, actions[|actions| - 1]);
    }
  }

  ghost predicate CanFail(s: System, j: JobId) {
    exists actions ::
      && RunFrom(s, actions).Some? && j in RunFrom(s, actions).value.jobs
      && RunFrom(s, actions).value.jobs[j].status.Failed?
  }

  /** A committed success can still become a failure exactly while a worker owns it. */
  lemma SuccessIsFinalIff(s: System, j: JobId)
    requires Reachable(s) && j in s.jobs && s.jobs[j].status.Succeeded?
    ensures CanFail(s, j) <==> Owned(s, j)
  {
    hide Apply, Owned, Inv;
    if CanFail(s, j) && !Owned(s, j) {
      var actions :| RunFrom(s, actions).Some? && j in RunFrom(s, actions).value.jobs
                     && RunFrom(s, actions).value.jobs[j].status.Failed?;
      UnownedSuccessIsFinal(s, j, actions);
    }
    if Owned(s, j) {
      OwnedSuccessCanFail(s, j);
    }
  }

  lemma OwnedSuccessCanFail(s: System, j: JobId)
    requires Reachable(s) && j in s.jobs && s.jobs[j].status.Succeeded? && Owned(s, j)
    ensures CanFail(s, j)
  {
    hide Apply, Inv, Reachable;
    var w :| w in s.workers && Owns(s.workers[w]) && s.workers[w].jobId == j;
    var lost, fail := AppendSuccessEvents(w, false), SaveFailure(w, "", NoFault);
    OwnerOfSuccess(s, w);
    RunOne(s, [], lost);
    RunOne(s, [], fail);
    assert [] + [lost] == [lost] && [] + [fail] == [fail];
    if s.workers[w].phase.Completed? {
      LostEventsThenFails(s, w);
      RunOne(s, [lost], fail);
      assert [lost] + [fail] == [lost, fail];
      assert RunFrom(s, [lost, fail]).Some?;
    } else {
      FailingFails(s, w);
      assert RunFrom(s, [fail]).Some?;
    }
  }

  lemma OwnerOfSuccess(s: System, w: nat)
    requires Reachable(s) && w in s.workers && Owns(s.workers[w])
    ensures s.workers[w].jobId in s.jobs
    ensures s.jobs[s.workers[w].jobId].status.Succeeded? ==> InPhase(s, w, Completed) || InPhase(s, w, Failing)
  {
    hide HistoryOk, ClaimsSeparated, RunningCount, Exclusive, Orderly;
    ReachableInv(s);
    assert WorkerOk(s, w);
  }

  lemma FailingFails(s: System, w: nat)
    requires InPhase(s, w, Failing)
    ensures
      var t := Apply(s, SaveFailure(w, "", NoFault));
      t.Some? && s.workers[w].jobId in t.value.jobs && t.value.jobs[s.workers[w].jobId].status.Failed?
  {
    hide EndAllRunning;
  }

  lemma LostEventsThenFails(s: System, w: nat)
    requires InPhase(s, w, Completed)
    ensures
      var j, t := s.workers[w].jobId, Apply(s, AppendSuccessEvents(w, false));
      && t.Some?
      && var u := Apply(t.value, SaveFailure(w, "", NoFault));
         u.Some? && j in u.value.jobs && u.value.jobs[j].status.Failed?
  {
    FailingFails(Apply(s, AppendSuccessEvents(w, false)).value, w);
  }

  /** A committed success can still turn into a failure: the events that follow it
      are inside the part that records failures. */
  lemma SuccessCanBecomeFailure(s: System, w: nat, error: string)
    requires Reachable(s) && InPhase(s, w, Completed)
    ensures
      var j := s.workers[w].jobId;
      var failing := Apply(s, AppendSuccessEvents(w, false)).value;
      var failed := Apply(failing, SaveFailure(w, error, NoFault)).value;
      s.jobs[j].status.Succeeded? && failed.jobs[j].status.Failed? && failed.jobs[j].result == s.jobs[j].result
  {
    hide HistoryOk, ClaimsSeparated, RunningCount, Exclusive;
    ReachableInv(s);
    assert WorkerOk(s, w);
  }

  /** Queuing must be atomic: a dispatch that reads a job, and writes the whole row
      back only after a worker has claimed it, lets a second worker own it too. */
  lemma LateQueuingBreaksExclusion(s: System, j: JobId, v: nat, w: nat)
    requires j in s.jobs && Runnable(s.jobs[j].status)
    requires v != w && v !in s.workers && w !in s.workers
    ensures
      var claimed := Apply(s, Claim(v, j, "first", NoFault)).value;
      var overwritten := claimed.(jobs := claimed.jobs[j := QueuedRow(s.jobs[j])]);
      var second := Apply(overwritten, Claim(w, j, "second", NoFault));
      second.Some? && !Exclusive(second.value)
  {
    var claimed := Apply(s, Claim(v, j, "first", NoFault)).value;
    var overwritten := claimed.(jobs := claimed.jobs[j := QueuedRow(s.jobs[j])]);
    var t := Apply(overwritten, Claim(w, j, "second", NoFault)).value;
    assert Owns(t.workers[v]) && Owns(t.workers[w]);
  }

  // ---- queuing in two steps ----

  ghost predicate StaysExclusive(s: System) {
    forall actions | RunFrom(s, actions).Some? :: Exclusive(RunFrom(s, actions).value)
  }

  /** An owner was one before, unless it has just won its claim. */
  lemma OwnerBefore(s: System, a: Action, w: nat)
    requires Apply(s, a).Some? && w in Apply(s, a).value.workers && Owns(Apply(s, a).value.workers[w])
    ensures
      var j := Apply(s, a).value.workers[w].jobId;
      || (w in s.workers && Owns(s.workers[w]) && s.workers[w].jobId == j)
      || (a.Claim? && a.w == w && a.jobId == j && j in s.jobs && Runnable(s.jobs[j].status))
  {
    hide RunningRow, SucceededRow, FailedRow, ClaimedRow;
  }

  /** The row an owner holds on to still runs or has succeeded. */
  lemma OwnedRowAfter(s: System, a: Action, w: nat)
    requires OwnersApart(s) && Apply(s, a).Some?
    requires w in Apply(s, a).value.workers && Owns(Apply(s, a).value.workers[w])
    ensures
      var t := Apply(s, a).value;
      var j := t.workers[w].jobId;
      j in t.jobs && (t.jobs[j].status.Running? || t.jobs[j].status.Succeeded?)
  {
    hide StartFirstPending, EndFirstRunning, EndAllRunning, Exclusive;
    OwnerBefore(s, a, w);
    if a.SaveRunning? || a.SaveSuccess? || a.SaveFailure? {
      SoleOwner(s, a.w, a.w);
      if w in s.workers && Owns(s.workers[w]) {
        SoleOwner(s, a.w, w);
      }
    }
  }

  lemma JobsRemain(s: System, a: Action)
    requires Apply(s, a).Some?
    ensures forall j | j in s.jobs :: j in Apply(s, a).value.jobs
    ensures forall w | w in Apply(s, a).value.workers && w in s.workers ::
      Apply(s, a).value.workers[w].jobId == s.workers[w].jobId
    ensures forall w | w in Apply(s, a).value.workers && w !in s.workers ::
      Apply(s, a).value.workers[w].jobId in s.jobs
  {
    hide RunningRow, SucceededRow, FailedRow, ClaimedRow;
  }

  lemma ApartStep(s: System, a: Action)
    requires OwnersApart(s) && Apply(s, a).Some?
    ensures OwnersApart(Apply(s, a).value)
  {
    hide Apply;
    var t := Apply(s, a).value;
    JobsRemain(s, a);
    forall w | w in t.workers && Owns(t.workers[w])
      ensures
        var j := t.workers[w].jobId;
        j in t.jobs && (t.jobs[j].status.Running? || t.jobs[j].status.Succeeded?)
    {
      OwnedRowAfter(s, a, w);
    }
    forall v, w | v in t.workers && w in t.workers && v != w && Owns(t.workers[v]) && Owns(t.workers[w])
      ensures t.workers[v].jobId != t.workers[w].jobId
    {
      OwnerBefore(s, a, v);
      OwnerBefore(s, a, w);
    }
  }

  lemma {:induction false} ApartStays(s: System, actions: seq<Action>)
    requires OwnersApart(s) && RunFrom(s, actions).Some?
    ensures OwnersApart(RunFrom(s, actions).value)
  {
    hide Apply, OwnersApart;
    if actions != [] {
      ApartStays(s, actions[..|actions| - 1]);
      ApartStep(RunFrom(s, actions[..|actions| - 1]).value, actions[|actions| - 1]);
    }
  }

  predicate ClaimsOf(actions: seq<Action>, j: JobId) {
    exists i | 0 <= i < |actions| :: actions[i].Claim? && actions[i].jobId == j
  }

  lemma {:induction false} OwnedAfterClaim(s: System, j: JobId, actions: seq<Action>)
    requires RunFrom(s, actions).Some? && !Owned(s, j) && Owned(RunFrom(s, actions).value, j)
    ensures ClaimsOf(actions, j)
  {
    hide Apply, Owned;
    var front, last := actions[..|actions| - 1], actions[|actions| - 1];
    if Owned(RunFrom(s, front).value, j) {
      OwnedAfterClaim(s, j, front);
      var i :| 0 <= i < |front| && front[i].Claim? && front[i].jobId == j;
      assert actions[i] == front[i];
    } else {
      OwnersStem(RunFrom(s, front).value, j, last);
    }
  }

  lemma {:induction false} SomeNewWorker(workers: map<nat, Worker>) returns (w: nat)
    ensures forall v | v in workers :: v < w
    decreases |workers|
  {
    w := 0;
    if v :| v in workers {
      w := SomeNewWorker(workers - {v});
      w := if w <= v then v + 1 else w;
      assert forall u | u in workers :: u == v || u in workers - {v};
    }
  }

  /** The row of `j` as a dispatch read it in `s`, written back queued over `t`. */
  function QueuedLate(s: System, t: System, j: JobId): System
    requires j in s.jobs
  {
    t.(jobs := t.jobs[j := QueuedRow(s.jobs[j])])
  }

  /** Reading a job and writing it back queued after other actions keeps ownership
      exclusive for ever exactly when nobody owns the job at the write; and an owner
      must have claimed it in between. */
  lemma LateQueuingIff(s: System, between: seq<Action>, j: JobId)
    requires Reachable(s) && j in s.jobs && !Unqueueable(s.jobs[j].status) && RunFrom(s, between).Some?
    ensures
      var t := RunFrom(s, between).value;
      && (StaysExclusive(QueuedLate(s, t, j)) <==> !Owned(t, j))
      && (Owned(t, j) ==> ClaimsOf(between, j))
  {
    hide Apply, Inv, Exclusive;
    var t := RunFrom(s, between).value;
    var late := QueuedLate(s, t, j);
    ReachableOwners(s);
    ApartStays(s, between);
    if Owned(t, j) {
      OwnedAfterClaim(s, j, between);
      LateClaimBreaks(late, j);
    } else {
      LateKeepsApart(s, t, j);
      forall actions | RunFrom(late, actions).Some?
        ensures Exclusive(RunFrom(late, actions).value)
      {
        ApartStays(late, actions);
      }
    }
  }

  lemma LateKeepsApart(s: System, t: System, j: JobId)
    requires j in s.jobs && OwnersApart(t) && !Owned(t, j)
    ensures OwnersApart(QueuedLate(s, t, j))
  {
  }

  lemma LateClaimBreaks(late: System, j: JobId)
    requires j in late.jobs && Runnable(late.jobs[j].status) && Owned(late, j)
    ensures !StaysExclusive(late)
  {
    var v :| v in late.workers && Owns(late.workers[v]) && late.workers[v].jobId == j;
    var w := SomeNewWorker(late.workers);
    var claim := Claim(w, j, "late", NoFault);
    RunOne(late, [], claim);
    assert [] + [claim] == [claim];
    var broken := RunFrom(late, [claim]).value;
    assert Owns(broken.workers[v]) && Owns(broken.workers[w]);
    assert !Exclusive(broken);
  }
}
