/** A run's result from its task rows, and a task's inputs from upstream rows. */
module RunResults {
  import opened Prelude
  import opened Json
  import opened Ordering
  import opened PipelineRecords

  // ---- which values are merged ----

  function Kept<K, V, W>(d: map<K, V>, keep: V -> Option<W>): map<K, W> {
    map k | k in d && keep(d[k]).Some? :: keep(d[k]).value
  }

  function Present(v: Value): Option<Value> {
    if v.Null? then None else Some(v)
  }

  function NonEmptyText(v: Value): Option<string> {
    if v.Str? && v.s != "" then Some(v.s) else None
  }

  /** Writes the kept entries of `over` onto `base`, one by one. */
  method Overlay<K(==), V, W>(base: map<K, W>, over: map<K, V>, keep: V -> Option<W>) returns (r: map<K, W>)
    ensures r == base + Kept(over, keep)
  {
    r := base;
    var keys := over.Keys;
    while keys != {}
      invariant keys <= over.Keys
      invariant r == base + Kept(map k | k in over && k !in keys :: over[k], keep)
      decreases |keys|
    {
      var k :| k in keys;
      var w := keep(over[k]);
      if w.Some? {
        r := r[k := w.value];
      }
      keys := keys - {k};
    }
    assert over == map k | k in over && k !in keys :: over[k];
  }

  // ---- a run's result ----

  function OrderOf(row: TaskRow): int {
    row.order
  }

  function OutputsOf(row: TaskRow): Dict {
    if row.result.None? then map[] else Kept(row.result.value.buckets.refs, Present)
  }

  function MetricsOf(row: TaskRow): Dict {
    if row.result.None? then map[] else Kept(row.result.value.buckets.metrics, Present)
  }

  function ArtifactsOf(row: TaskRow): map<string, string> {
    if row.result.None? then map[] else Kept(row.result.value.buckets.artifacts, NonEmptyText)
  }

  /** The row's result; failing that, a bare entry if it has a job. */
  function EntryOf(row: TaskRow): seq<TaskResult> {
    if row.result.Some? then [row.result.value]
    else if row.jobId.Some? then [TaskResult(row.id, row.jobId, Some(row.status), NoBuckets(map[]))]
    else []
  }

  function Entries(rows: seq<TaskRow>): seq<TaskResult> {
    if rows == [] then [] else Entries(rows[..|rows| - 1]) + EntryOf(rows[|rows| - 1])
  }

  function Count(rows: seq<TaskRow>, status: TaskStatus): nat {
    if rows == [] then 0
    else Count(rows[..|rows| - 1], status) + if rows[|rows| - 1].status == status then 1 else 0
  }

  function Summarized(rows: seq<TaskRow>, status: RunStatus): RunSummary {
    RunSummary(status, |rows|, Count(rows, TaskStatus.Succeeded), Count(rows, Skipped),
               Count(rows, TaskStatus.Blocked), Count(rows, TaskStatus.Failed))
  }

  function BuiltResult(rows: seq<TaskRow>, status: RunStatus): RunResult {
    var sorted := SortBy(rows, OrderOf);
    RunResult(Summarized(sorted, status), Layered(sorted, ArtifactsOf), Layered(sorted, OutputsOf),
              Layered(sorted, MetricsOf), Entries(sorted))
  }

  lemma CountSnoc(rows: seq<TaskRow>, row: TaskRow, status: TaskStatus)
    ensures Count(rows + [row], status) == Count(rows, status) + if row.status == status then 1 else 0
  {
    assert (rows + [row])[..|rows|] == rows;
  }

  lemma EntriesSnoc(rows: seq<TaskRow>, row: TaskRow)
    ensures Entries(rows + [row]) == Entries(rows) + EntryOf(row)
  {
    assert (rows + [row])[..|rows|] == rows;
  }

  lemma LayersSnoc(rows: seq<TaskRow>, row: TaskRow)
    ensures Layered(rows + [row], ArtifactsOf) == Layered(rows, ArtifactsOf) + ArtifactsOf(row)
    ensures Layered(rows + [row], OutputsOf) == Layered(rows, OutputsOf) + OutputsOf(row)
    ensures Layered(rows + [row], MetricsOf) == Layered(rows, MetricsOf) + MetricsOf(row)
  {
    LayeredSnoc(rows, row, ArtifactsOf);
    LayeredSnoc(rows, row, OutputsOf);
    LayeredSnoc(rows, row, MetricsOf);
  }

  method BuildPipelineResult(rows: seq<TaskRow>, status: RunStatus) returns (r: RunResult)
    ensures r == BuiltResult(rows, status)
  {
    hide Kept, Layered, Count, Entries, SortBy, Insert;
    var sorted := SortBy(rows, OrderOf);
    SameLength(rows);
    EmptyMerge();
    var tasks: seq<TaskResult> := [];
    var outputs: Dict, metrics: Dict, artifacts: map<string, string> := map[], map[], map[];
    var succeeded, skipped, blocked, failed := 0, 0, 0, 0;
    for i := 0 to |sorted|
      invariant tasks == Entries(sorted[..i])
      invariant outputs == Layered(sorted[..i], OutputsOf) && metrics == Layered(sorted[..i], MetricsOf)
      invariant artifacts == Layered(sorted[..i], ArtifactsOf)
      invariant succeeded == Count(sorted[..i], TaskStatus.Succeeded) && skipped == Count(sorted[..i], Skipped)
      invariant blocked == Count(sorted[..i], TaskStatus.Blocked) && failed == Count(sorted[..i], TaskStatus.Failed)
    {
      var row := sorted[i];
      assert sorted[..i + 1] == sorted[..i] + [row];
      LayersSnoc(sorted[..i], row);
      EntriesSnoc(sorted[..i], row);
      forall status {
        CountSnoc(sorted[..i], row, status);
      }
      match row.status {
        case Succeeded => succeeded := succeeded + 1;
        case Skipped => skipped := skipped + 1;
        case Blocked => blocked := blocked + 1;
        case Failed => failed := failed + 1;
        case _ =>
      }
      if row.result.Some? {
        var buckets := row.result.value.buckets;
        tasks := tasks + [row.result.value];
        outputs := Overlay(outputs, buckets.refs, Present);
        metrics := Overlay(metrics, buckets.metrics, Present);
        artifacts := Overlay(artifacts, buckets.artifacts, NonEmptyText);
      } else if row.jobId.Some? {
        tasks := tasks + [TaskResult(row.id, row.jobId, Some(row.status), NoBuckets(map[]))];
      }
    }
    assert sorted[..|sorted|] == sorted;
    r := RunResult(RunSummary(status, |rows|, succeeded, skipped, blocked, failed), artifacts, outputs, metrics, tasks);
  }

  lemma SameLength(rows: seq<TaskRow>)
    ensures |SortBy(rows, OrderOf)| == |rows|
  {
    SortByKeeps(rows, OrderOf);
    SameMembers(SortBy(rows, OrderOf), rows);
  }

  lemma EmptyMerge()
    ensures Layered<TaskRow, string, Value>([], OutputsOf) == map[]
    ensures Layered<TaskRow, string, Value>([], MetricsOf) == map[]
    ensures Layered<TaskRow, string, string>([], ArtifactsOf) == map[]
    ensures Entries([]) == [] && forall status :: Count([], status) == 0
  {
  }

  // ---- what a merged value means ----

  /** An output holds the non-null ref of the row with the greatest order, the last
      one on a tie; metrics and artifacts likewise. */
  lemma HighestOrderWins(rows: seq<TaskRow>, status: RunStatus, key: string, i: nat)
    ensures TopHolder(rows, OrderOf, OutputsOf, key, i) ==>
      key in BuiltResult(rows, status).outputs && BuiltResult(rows, status).outputs[key] == OutputsOf(rows[i])[key]
    ensures TopHolder(rows, OrderOf, MetricsOf, key, i) ==>
      key in BuiltResult(rows, status).metrics && BuiltResult(rows, status).metrics[key] == MetricsOf(rows[i])[key]
    ensures TopHolder(rows, OrderOf, ArtifactsOf, key, i) ==>
      && key in BuiltResult(rows, status).artifacts
      && BuiltResult(rows, status).artifacts[key] == ArtifactsOf(rows[i])[key]
  {
    hide Kept, Layered, SortBy, TopHolder, Summarized, Entries;
    if TopHolder(rows, OrderOf, OutputsOf, key, i) {
      TopLayerWins(rows, OrderOf, OutputsOf, key, i);
    }
    if TopHolder(rows, OrderOf, MetricsOf, key, i) {
      TopLayerWins(rows, OrderOf, MetricsOf, key, i);
    }
    if TopHolder(rows, OrderOf, ArtifactsOf, key, i) {
      TopLayerWins(rows, OrderOf, ArtifactsOf, key, i);
    }
  }

  /** Every output comes from some row, and has a row of greatest order. */
  lemma EveryOutputHasASource(rows: seq<TaskRow>, status: RunStatus, key: string) returns (i: nat)
    requires key in BuiltResult(rows, status).outputs
    ensures TopHolder(rows, OrderOf, OutputsOf, key, i)
    ensures BuiltResult(rows, status).outputs[key] == OutputsOf(rows[i])[key]
  {
    LayeredNeedsHolder(rows, OrderOf, OutputsOf, key);
    i := TopHolderExists(rows, OrderOf, OutputsOf, key);
    HighestOrderWins(rows, status, key, i);
  }

  // ---- the result, in terms of the rows' buckets ----

  predicate HoldsRef(row: TaskRow, key: string) {
    row.result.Some? && key in row.result.value.buckets.refs && row.result.value.buckets.refs[key] != Null
  }

  predicate HoldsMetric(row: TaskRow, key: string) {
    row.result.Some? && key in row.result.value.buckets.metrics && row.result.value.buckets.metrics[key] != Null
  }

  predicate HoldsArtifact(row: TaskRow, key: string) {
    && row.result.Some? && key in row.result.value.buckets.artifacts
    && row.result.value.buckets.artifacts[key].Str? && row.result.value.buckets.artifacts[key].s != ""
  }

  /** The row at `i` holds the key, and no other that does has a greater order, or the same
      order and a later place. */
  predicate IsTop(rows: seq<TaskRow>, holds: (TaskRow, string) -> bool, key: string, i: int) {
    && 0 <= i < |rows| && holds(rows[i], key)
    && forall j | 0 <= j < |rows| && j != i && holds(rows[j], key) ::
         rows[j].order < rows[i].order || (rows[j].order == rows[i].order && j < i)
  }

  lemma RefsAreOutputs(rows: seq<TaskRow>, key: string)
    ensures forall row :: HoldsRef(row, key) <==> key in OutputsOf(row)
    ensures forall row | HoldsRef(row, key) :: OutputsOf(row)[key] == row.result.value.buckets.refs[key]
    ensures forall i: nat :: IsTop(rows, HoldsRef, key, i) <==> TopHolder(rows, OrderOf, OutputsOf, key, i)
  {
  }

  lemma MetricsAreMetrics(rows: seq<TaskRow>, key: string)
    ensures forall row :: HoldsMetric(row, key) <==> key in MetricsOf(row)
    ensures forall row | HoldsMetric(row, key) :: MetricsOf(row)[key] == row.result.value.buckets.metrics[key]
    ensures forall i: nat :: IsTop(rows, HoldsMetric, key, i) <==> TopHolder(rows, OrderOf, MetricsOf, key, i)
  {
  }

  lemma TextsAreArtifacts(rows: seq<TaskRow>, key: string)
    ensures forall row :: HoldsArtifact(row, key) <==> key in ArtifactsOf(row)
    ensures forall row | HoldsArtifact(row, key) ::
      Str(ArtifactsOf(row)[key]) == row.result.value.buckets.artifacts[key]
    ensures forall i: nat :: IsTop(rows, HoldsArtifact, key, i) <==> TopHolder(rows, OrderOf, ArtifactsOf, key, i)
  {
  }

  /** An output is published exactly when some row's refs hold it, with the value of the
      row of greatest order, the last one on a tie. */
  lemma OutputsIff(rows: seq<TaskRow>, status: RunStatus, key: string)
    ensures
      var outputs := BuiltResult(rows, status).outputs;
      && (key in outputs <==> exists i :: 0 <= i < |rows| && HoldsRef(rows[i], key))
      && (key in outputs <==> exists i :: IsTop(rows, HoldsRef, key, i))
      && (forall i | IsTop(rows, HoldsRef, key, i) :: outputs[key] == rows[i].result.value.buckets.refs[key])
  {
    hide OutputsOf, Layered, SortBy, TopHolder, HoldsRef;
    RefsAreOutputs(rows, key);
    if i: nat :| i < |rows| && HoldsRef(rows[i], key) {
      var top := TopHolderExists(rows, OrderOf, OutputsOf, key);
      TopLayerWins(rows, OrderOf, OutputsOf, key, top);
    }
    if key in BuiltResult(rows, status).outputs {
      LayeredNeedsHolder(rows, OrderOf, OutputsOf, key);
    }
    forall i | IsTop(rows, HoldsRef, key, i)
      ensures key in BuiltResult(rows, status).outputs
      ensures key in OutputsOf(rows[i]) && BuiltResult(rows, status).outputs[key] == OutputsOf(rows[i])[key]
    {
      TopLayerWins(rows, OrderOf, OutputsOf, key, i);
    }
  }

  /** A metric likewise, from the rows' metrics. */
  lemma MetricsIff(rows: seq<TaskRow>, status: RunStatus, key: string)
    ensures
      var metrics := BuiltResult(rows, status).metrics;
      && (key in metrics <==> exists i :: 0 <= i < |rows| && HoldsMetric(rows[i], key))
      && (key in metrics <==> exists i :: IsTop(rows, HoldsMetric, key, i))
      && (forall i | IsTop(rows, HoldsMetric, key, i) ::
            metrics[key] == rows[i].result.value.buckets.metrics[key])
  {
    hide MetricsOf, Layered, SortBy, TopHolder, HoldsMetric;
    MetricsAreMetrics(rows, key);
    if i: nat :| i < |rows| && HoldsMetric(rows[i], key) {
      var top := TopHolderExists(rows, OrderOf, MetricsOf, key);
      TopLayerWins(rows, OrderOf, MetricsOf, key, top);
    }
    if key in BuiltResult(rows, status).metrics {
      LayeredNeedsHolder(rows, OrderOf, MetricsOf, key);
    }
    forall i | IsTop(rows, HoldsMetric, key, i)
      ensures key in BuiltResult(rows, status).metrics
      ensures key in MetricsOf(rows[i]) && BuiltResult(rows, status).metrics[key] == MetricsOf(rows[i])[key]
    {
      TopLayerWins(rows, OrderOf, MetricsOf, key, i);
    }
  }

  /** And an artifact, if it is a text that is not empty. */
  lemma ArtifactsIff(rows: seq<TaskRow>, status: RunStatus, key: string)
    ensures
      var artifacts := BuiltResult(rows, status).artifacts;
      && (key in artifacts <==> exists i :: 0 <= i < |rows| && HoldsArtifact(rows[i], key))
      && (key in artifacts <==> exists i :: IsTop(rows, HoldsArtifact, key, i))
      && (forall i | IsTop(rows, HoldsArtifact, key, i) ::
            Str(artifacts[key]) == rows[i].result.value.buckets.artifacts[key])
  {
    hide ArtifactsOf, Layered, SortBy, TopHolder, HoldsArtifact;
    TextsAreArtifacts(rows, key);
    if i: nat :| i < |rows| && HoldsArtifact(rows[i], key) {
      var top := TopHolderExists(rows, OrderOf, ArtifactsOf, key);
      TopLayerWins(rows, OrderOf, ArtifactsOf, key, top);
    }
    if key in BuiltResult(rows, status).artifacts {
      LayeredNeedsHolder(rows, OrderOf, ArtifactsOf, key);
    }
    forall i | IsTop(rows, HoldsArtifact, key, i)
      ensures key in BuiltResult(rows, status).artifacts
      ensures key in ArtifactsOf(rows[i]) && BuiltResult(rows, status).artifacts[key] == ArtifactsOf(rows[i])[key]
    {
      TopLayerWins(rows, OrderOf, ArtifactsOf, key, i);
    }
  }

  // ---- the summary and the list of tasks ----

  function HasStatus(status: TaskStatus): TaskRow -> bool {
    (row: TaskRow) => row.status == status
  }

  function RowsWith(rows: seq<TaskRow>, status: TaskStatus): set<nat> {
    Where(rows, HasStatus(status))
  }

  lemma {:induction false} CountIsSize(rows: seq<TaskRow>, status: TaskStatus)
    ensures Count(rows, status) == |RowsWith(rows, status)|
  {
    hide Where;
    WhereLast(rows, HasStatus(status));
    if rows != [] {
      CountIsSize(rows[..|rows| - 1], status);
    }
  }

  /** The summary tells the run's status, how many rows there are, and how many of each
      of four statuses, however they are listed. */
  lemma SummaryCountsRows(rows: seq<TaskRow>, status: RunStatus)
    ensures
      var summary := BuiltResult(rows, status).summary;
      && summary.status == status && summary.taskCount == |rows|
      && summary.succeeded == |RowsWith(rows, TaskStatus.Succeeded)|
      && summary.skipped == |RowsWith(rows, TaskStatus.Skipped)|
      && summary.blocked == |RowsWith(rows, TaskStatus.Blocked)|
      && summary.failed == |RowsWith(rows, TaskStatus.Failed)|
  {
    hide Count, SortBy, Layered, Entries, RowsWith;
    SameLength(rows);
    forall status: TaskStatus
      ensures Count(SortBy(rows, OrderOf), status) == |RowsWith(rows, status)|
    {
      CountsIgnoreOrder(rows, status);
      CountIsSize(rows, status);
    }
  }

  /** The entry is the row's own result, or a bare one for a row that has only a job. */
  predicate TellsRow(e: TaskResult, row: TaskRow) {
    || row.result == Some(e)
    || (row.result == None && row.jobId.Some? && e.taskId == row.id && e.jobId == row.jobId
        && e.jobStatus == Some(row.status) && e.buckets == Buckets(map[], map[], map[], map[], map[]))
  }

  lemma {:induction false} EntriesTellRows(rows: seq<TaskRow>)
    ensures forall e | e in Entries(rows) :: exists row :: row in rows && TellsRow(e, row)
    ensures forall row | row in rows && (row.result.Some? || row.jobId.Some?) ::
      exists e :: e in Entries(rows) && TellsRow(e, row)
  {
    if rows != [] {
      var front, last := rows[..|rows| - 1], rows[|rows| - 1];
      EntriesTellRows(front);
      assert rows == front + [last];
      assert forall e | e in EntryOf(last) :: TellsRow(e, last);
      assert last.result.Some? || last.jobId.Some? ==> TellsRow(EntryOf(last)[0], last);
      forall e | e in Entries(rows)
        ensures exists row :: row in rows && TellsRow(e, row)
      {
        if e in Entries(front) {
          var row :| row in front && TellsRow(e, row);
          assert row in rows;
        }
      }
      forall row | row in rows && (row.result.Some? || row.jobId.Some?)
        ensures exists e :: e in Entries(rows) && TellsRow(e, row)
      {
        if row in front {
          var e :| e in Entries(front) && TellsRow(e, row);
          assert e in Entries(rows);
        } else {
          assert EntryOf(last)[0] in Entries(rows);
        }
      }
    }
  }

  /** The tasks listed are those that have a result or a job, each as its row has it. */
  lemma TasksTellRows(rows: seq<TaskRow>, status: RunStatus)
    ensures forall e | e in BuiltResult(rows, status).tasks :: exists row :: row in rows && TellsRow(e, row)
    ensures forall row | row in rows && (row.result.Some? || row.jobId.Some?) ::
      exists e :: e in BuiltResult(rows, status).tasks && TellsRow(e, row)
  {
    hide Entries, SortBy, TellsRow, Layered, Summarized;
    var sorted := SortBy(rows, OrderOf);
    SortByMembers(rows, OrderOf);
    EntriesTellRows(sorted);
  }

  /** The whole result is the same for rows listed in another order, when rows with
      the same order are the same. */
  lemma ResultForgetsListing(a: seq<TaskRow>, b: seq<TaskRow>, status: RunStatus)
    requires multiset(a) == multiset(b) && KeyDetermines(a, OrderOf)
    ensures BuiltResult(a, status) == BuiltResult(b, status)
  {
    SortForgetsOrder(a, b, OrderOf);
  }

  lemma {:induction false} CountInsert(rows: seq<TaskRow>, row: TaskRow, status: TaskStatus)
    ensures Count(Insert(rows, row, OrderOf), status) == Count(rows + [row], status)
  {
    hide Count;
    CountSnoc(rows, row, status);
    if rows != [] && !(OrderOf(rows[|rows| - 1]) <= OrderOf(row)) {
      var front, last := rows[..|rows| - 1], rows[|rows| - 1];
      assert rows == front + [last];
      CountInsert(front, row, status);
      CountSnoc(front, row, status);
      CountSnoc(front, last, status);
      CountSnoc(Insert(front, row, OrderOf), last, status);
    }
  }

  /** The reported counts are those of the rows as listed. */
  lemma {:induction false} CountsIgnoreOrder(rows: seq<TaskRow>, status: TaskStatus)
    ensures Count(SortBy(rows, OrderOf), status) == Count(rows, status)
  {
    if rows != [] {
      var front, last := rows[..|rows| - 1], rows[|rows| - 1];
      CountsIgnoreOrder(front, status);
      CountInsert(SortBy(front, OrderOf), last, status);
      CountSnoc(SortBy(front, OrderOf), last, status);
      CountSnoc(front, last, status);
    }
  }

  // ---- a task's inputs from upstream ----

  /** `status` is absent for a row that does not exist. */
  datatype UpstreamRef = UpstreamRef(
    taskId: string, status: Option<TaskStatus>, jobId: Option<JobRef>, refs: Dict, summary: Dict, raw: Dict)

  datatype Upstream = Upstream(tasks: map<string, UpstreamRef>, refs: Dict, summary: Dict)

  predicate HasResult(rows: map<string, TaskRow>, id: string) {
    id in rows && rows[id].status.Succeeded? && rows[id].result.Some?
  }

  function RefsOf(rows: map<string, TaskRow>): string -> Dict {
    id => if HasResult(rows, id) then Kept(rows[id].result.value.buckets.refs, Present) else map[]
  }

  function SummaryOf(rows: map<string, TaskRow>): string -> Dict {
    id => if HasResult(rows, id) then Kept(rows[id].result.value.buckets.summary, Present) else map[]
  }

  function UpstreamEntry(rows: map<string, TaskRow>, id: string): UpstreamRef {
    if id !in rows then UpstreamRef(id, None, None, map[], map[], map[])
    else if !HasResult(rows, id) then UpstreamRef(id, Some(rows[id].status), rows[id].jobId, map[], map[], map[])
    else
      var b := rows[id].result.value.buckets;
      UpstreamRef(id, Some(rows[id].status), rows[id].jobId, b.refs, b.summary, b.raw)
  }

  method ResolveUpstream(dependsOn: seq<string>, rows: map<string, TaskRow>) returns (u: Upstream)
    ensures u.refs == Layered(dependsOn, RefsOf(rows)) && u.summary == Layered(dependsOn, SummaryOf(rows))
    ensures forall id :: id in u.tasks <==> id in dependsOn
    ensures forall id | id in u.tasks :: u.tasks[id] == UpstreamEntry(rows, id)
  {
    hide Kept, Layered;
    var tasks: map<string, UpstreamRef>, refs: Dict, summary: Dict := map[], map[], map[];
    NoLayers(RefsOf(rows), SummaryOf(rows));
    for i := 0 to |dependsOn|
      invariant refs == Layered(dependsOn[..i], RefsOf(rows)) && summary == Layered(dependsOn[..i], SummaryOf(rows))
      invariant forall id :: id in tasks <==> id in dependsOn[..i]
      invariant forall id | id in tasks :: tasks[id] == UpstreamEntry(rows, id)
    {
      var id := dependsOn[i];
      assert dependsOn[..i + 1] == dependsOn[..i] + [id];
      LayeredSnoc(dependsOn[..i], id, RefsOf(rows));
      LayeredSnoc(dependsOn[..i], id, SummaryOf(rows));
      if id !in rows {
        tasks := tasks[id := UpstreamRef(id, None, None, map[], map[], map[])];
        continue;
      }
      var row := rows[id];
      if row.status != TaskStatus.Succeeded {
        tasks := tasks[id := UpstreamRef(id, Some(row.status), row.jobId, map[], map[], map[])];
        continue;
      }
      var upstream := NoBuckets(map[]);
      if row.result.Some? {
        upstream := row.result.value.buckets;
      }
      tasks := tasks[id := UpstreamRef(id, Some(row.status), row.jobId, upstream.refs, upstream.summary, upstream.raw)];
      NothingKept();
      refs := Overlay(refs, upstream.refs, Present);
      summary := Overlay(summary, upstream.summary, Present);
    }
    assert dependsOn[..|dependsOn|] == dependsOn;
    u := Upstream(tasks, refs, summary);
  }

  lemma NoLayers(f: string -> Dict, g: string -> Dict)
    ensures Layered([], f) == map[] && Layered([], g) == map[]
  {
  }

  lemma NothingKept()
    ensures Kept<string, Value, Value>(map[], Present) == map[]
  {
  }

  /** A succeeded row whose refs, or whose summary, hold the key. */
  predicate SuppliesRef(rows: map<string, TaskRow>, id: string, key: string) {
    id in rows && rows[id].status == TaskStatus.Succeeded && HoldsRef(rows[id], key)
  }

  predicate SuppliesSummary(rows: map<string, TaskRow>, id: string, key: string) {
    && id in rows && rows[id].status == TaskStatus.Succeeded && rows[id].result.Some?
    && key in rows[id].result.value.buckets.summary && rows[id].result.value.buckets.summary[key] != Null
  }

  lemma RefsAreSupplied(rows: map<string, TaskRow>, key: string)
    ensures forall id :: SuppliesRef(rows, id, key) <==> key in RefsOf(rows)(id)
    ensures forall id | SuppliesRef(rows, id, key) ::
      RefsOf(rows)(id)[key] == UpstreamEntry(rows, id).refs[key] == rows[id].result.value.buckets.refs[key]
    ensures forall id :: SuppliesSummary(rows, id, key) <==> key in SummaryOf(rows)(id)
    ensures forall id | SuppliesSummary(rows, id, key) ::
      SummaryOf(rows)(id)[key] == UpstreamEntry(rows, id).summary[key] == rows[id].result.value.buckets.summary[key]
  {
  }

  /** An input ref is there exactly when a succeeded upstream task holds it, with the value
      of the last one in the dependency list, which is also what the entry listed for that
      task says. */
  lemma LastDependencyWins(dependsOn: seq<string>, rows: map<string, TaskRow>, key: string)
    ensures
      var refs := Layered(dependsOn, RefsOf(rows));
      && (key in refs <==> exists i :: 0 <= i < |dependsOn| && SuppliesRef(rows, dependsOn[i], key))
      && forall i |
           0 <= i < |dependsOn| && SuppliesRef(rows, dependsOn[i], key)
           && (forall j | i < j < |dependsOn| :: !SuppliesRef(rows, dependsOn[j], key)) ::
           && key in refs && refs[key] == rows[dependsOn[i]].result.value.buckets.refs[key]
           && refs[key] == UpstreamEntry(rows, dependsOn[i]).refs[key]
  {
    hide Layered, RefsOf, SummaryOf, UpstreamEntry, SuppliesRef, HoldsRef;
    RefsAreSupplied(rows, key);
    LastLayerWins(dependsOn, RefsOf(rows), key);
    forall i |
      0 <= i < |dependsOn| && SuppliesRef(rows, dependsOn[i], key)
      && (forall j | i < j < |dependsOn| :: !SuppliesRef(rows, dependsOn[j], key))
      ensures LastHolder(dependsOn, RefsOf(rows), key, i)
    {
    }
  }

  /** The merged summary likewise. */
  lemma LastSummaryWins(dependsOn: seq<string>, rows: map<string, TaskRow>, key: string)
    ensures
      var summary := Layered(dependsOn, SummaryOf(rows));
      && (key in summary <==> exists i :: 0 <= i < |dependsOn| && SuppliesSummary(rows, dependsOn[i], key))
      && forall i |
           0 <= i < |dependsOn| && SuppliesSummary(rows, dependsOn[i], key)
           && (forall j | i < j < |dependsOn| :: !SuppliesSummary(rows, dependsOn[j], key)) ::
           && key in summary && summary[key] == rows[dependsOn[i]].result.value.buckets.summary[key]
           && summary[key] == UpstreamEntry(rows, dependsOn[i]).summary[key]
  {
    hide Layered, RefsOf, SummaryOf, UpstreamEntry, SuppliesSummary;
    RefsAreSupplied(rows, key);
    LastLayerWins(dependsOn, SummaryOf(rows), key);
    forall i |
      0 <= i < |dependsOn| && SuppliesSummary(rows, dependsOn[i], key)
      && (forall j | i < j < |dependsOn| :: !SuppliesSummary(rows, dependsOn[j], key))
      ensures LastHolder(dependsOn, SummaryOf(rows), key, i)
    {
    }
  }

  /** What is listed for one dependency: its row's status and job, if it has a row, and its
      buckets only if it succeeded. */
  lemma UpstreamTells(rows: map<string, TaskRow>, id: string)
    ensures
      var e := UpstreamEntry(rows, id);
      && e.taskId == id && (e.status == None <==> id !in rows)
      && (id in rows ==> e.status == Some(rows[id].status) && e.jobId == rows[id].jobId)
      && (e.refs != map[] || e.summary != map[] || e.raw != map[] ==>
            && id in rows && rows[id].status == TaskStatus.Succeeded && rows[id].result.Some?
            && e.refs == rows[id].result.value.buckets.refs && e.summary == rows[id].result.value.buckets.summary
            && e.raw == rows[id].result.value.buckets.raw)
      && (id in rows && rows[id].status == TaskStatus.Succeeded && rows[id].result.Some? ==>
            e.refs == rows[id].result.value.buckets.refs)
  {
  }
}
