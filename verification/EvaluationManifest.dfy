/** What the manifest of an evaluation adds up to: nothing lost among the shards, and
    how the written sample results relate to the reported metrics. */
module EvaluationManifest {
  import opened SampleEvaluation
  import opened Accumulation
  import opened SceneIndex
  import opened ShardEvaluation
  import opened Names
  import opened Ordering

  /** Whether a dataset is skipped as a whole is decided by its annotations alone. */
  lemma DatasetIsSkippedIff(refs: seq<SceneRef>, store: SceneStore, run: Run, shards: seq<Shard>)
    requires NothingNegative(store) && run.index == IndexOf(Entries(refs, store))
    ensures
      Conclude(run, shards).Ok? && Conclude(run, shards).value.SkippedDataset? <==>
        && !run.missingGroundTruthFails
        && forall e | e in Entries(refs, store) :: e.manifest.annotationCount == 0
  {
    hide SceneIndex.IndexOf, SceneIndex.Entries, NothingNegative, RunShards, SummaryOf, SkipsOf;
    TotalsTell(refs, store);
    IndexLockstep(Entries(refs, store));
  }

  // ---- the summary of the index ----

  function SceneSamples(scene: SceneSummary): int {
    scene.sampleCount
  }

  function SceneFrames(scene: SceneSummary): int {
    scene.frameCount
  }

  function SceneAnnotations(scene: SceneSummary): int {
    scene.annotationCount
  }

  function BearingScenes(scenes: seq<SceneSummary>): set<nat> {
    set i: nat | i < |scenes| && scenes[i].hasGroundTruth
  }

  /** The scenes shown are those loaded, each with the counts of its entry, and the totals
      beside them are their sums. */
  ghost predicate AddsUp(summary: IndexSummary, entries: seq<Entry>) {
    && summary.sceneCount == |summary.scenes| == |entries|
    && (forall i | 0 <= i < |entries| ::
          var scene, e := summary.scenes[i], entries[i];
          && scene.sceneId == e.sceneId && scene.hasGroundTruth == e.hasGroundTruth
          && scene.sampleCount == e.sampleCount && scene.frameCount == e.frameCount
          && scene.annotationCount == e.annotationCount && scene.groundTruthSource == e.groundTruthSource)
    && summary.sampleCount == SumBy(summary.scenes, SceneSamples)
    && summary.frameCount == SumBy(summary.scenes, SceneFrames)
    && summary.annotationCount == SumBy(summary.scenes, SceneAnnotations)
    && summary.groundTruthSceneCount == |BearingScenes(summary.scenes)|
  }

  lemma SummaryAddsUp(entries: seq<Entry>)
    ensures AddsUp(SummaryOf(IndexOf(entries)), entries)
  {
    hide SceneIndex.IndexOf;
    IndexLockstep(entries);
    TotalsAreSums(entries);
    var summary := SummaryOf(IndexOf(entries));
    SumBySame(entries, summary.scenes, SamplesIn, SceneSamples);
    SumBySame(entries, summary.scenes, FramesIn, SceneFrames);
    SumBySame(entries, summary.scenes, AnnotationsIn, SceneAnnotations);
    assert BearingScenes(summary.scenes) == WithGroundTruth(entries);
  }

  /** However an evaluation ends, its manifest shows the loaded scenes and their sums. */
  lemma ManifestSummaryAddsUp(run: Run, shards: seq<Shard>, entries: seq<Entry>)
    requires run.index == IndexOf(entries) && Conclude(run, shards).Ok?
    ensures AddsUp(Conclude(run, shards).value.summary, entries)
  {
    hide SceneIndex.IndexOf, RunShards, SummaryOf, SkipsOf, AddsUp, Accumulation.TotalsOf, Accumulation.Finalized,
      Accumulation.MetricsOf, Names.Ascending;
    SummaryAddsUp(entries);
  }

  // ---- the mean ----

  lemma {:induction false} RunTellsMatches(run: Run, shards: seq<Shard>)
    requires RunShards(run, shards).Ok?
    ensures forall e | e in RunShards(run, shards).value.evals :: TellsMatches(e)
  {
    hide TellsMatches, EvalOf, WarningsOf;
    if shards != [] {
      var decision := Decide(run, shards[|shards| - 1]);
      RunTellsMatches(run, shards[..|shards| - 1]);
      if decision.Evaluate? {
        EvalIsReport(run, decision.sample, decision.payload);
        ReportsTellMatches(SampleMatcher(decision.sample.annotations, run.dist, run.limit),
                           decision.payload.predictions);
      }
    }
  }

  /** The mean error of a finished run is the mean distance of all matches it evaluated,
      to half a millionth, and zero when there are none. */
  lemma FinishedMeanIsMean(run: Run, shards: seq<Shard>)
    requires Conclude(run, shards).Ok? && Conclude(run, shards).value.FinishedRun?
    ensures
      var r, all := Conclude(run, shards).value, AllMatches(RunShards(run, shards).value.evals);
      && r.metrics.tp == |all|
      && (all == [] ==> r.metrics.meanError == 0.0)
      && (all != [] ==>
            -0.0000005 <= r.metrics.meanError - ErrorSum(all) / |all| as real <= 0.0000005)
  {
    hide RunShards, AllMatches, ErrorSum, TellsMatches, Exact, WithinReach, SummaryOf, SkipsOf, Accumulation.TotalsOf,
      Accumulation.Finalized, Names.Ascending, Ratio;
    var evals := RunShards(run, shards).value.evals;
    RunTellsMatches(run, shards);
    RunMeanIsMean(evals);
    RunReportsWell(run, shards);
    EveryHitIsMatched(evals);
  }

  // ---- conservation ----

  lemma {:induction false} AllSkipped(run: Run, shards: seq<Shard>)
    requires RunShards(run, shards).Ok? && RunShards(run, shards).value.evals == []
    ensures RunShards(run, shards).value.skippedPredictionCount == PredictionSum(shards)
  {
    hide Decide, EvalOf, WarningsOf;
    if shards != [] {
      AllSkipped(run, shards[..|shards| - 1]);
    }
  }

  /** Whichever way an evaluation ends, its counts account for every shard, and for
      every announced prediction if the shards announce what their payloads hold. */
  lemma NothingIsLost(run: Run, shards: seq<Shard>)
    requires Conclude(run, shards).Ok?
    ensures
      match Conclude(run, shards).value
      case SkippedDataset(_, shardCount, predictionCount) =>
        shardCount == |shards| && predictionCount == PredictionSum(shards)
      case SkippedRun(_, skips) =>
        && skips.shardCount == |shards| && skips.predictionCount == PredictionSum(shards)
        && |skips.shown| == if |shards| <= 100 then |shards| else 100
      case FinishedRun(_, metrics, _, _, evaluated, predictionCount, skips, _, _) =>
        && 0 < evaluated && evaluated + skips.shardCount == |shards|
        && (CountsMatch(run, shards) ==>
              && predictionCount + skips.predictionCount == PredictionSum(shards)
              && metrics.tp + metrics.fp + metrics.liftingFailedCount == predictionCount)
  {
    hide RunShards, PredictionSum, CountsMatch, SummaryOf, SkippedSceneIds, Names.Ascending,
      Accumulation.TotalsOf, Accumulation.Finalized;
    if !Conclude(run, shards).value.SkippedDataset? {
      ShardsConserved(run, shards);
      if RunShards(run, shards).value.evals == [] {
        AllSkipped(run, shards);
      } else if CountsMatch(run, shards) {
        PredictionsAddUp(run, shards);
      }
    }
  }

  /** Under the fail policy an evaluation that does not fail is a finished one, and all
      it skipped were samples of no indexed scene. */
  lemma FailPolicyFinishes(run: Run, shards: seq<Shard>)
    requires run.missingGroundTruthFails && Conclude(run, shards).Ok?
    ensures
      var r := Conclude(run, shards).value;
      && r.FinishedRun?
      && (forall record | record in r.skips.shown :: record.reason == SampleNotFound)
      && (forall id | id in r.skips.sceneIds :: id !in run.index.scenesById)
  {
    hide RunShards, SummaryOf, Names.Ascending, Accumulation.TotalsOf, Accumulation.Finalized, Accumulation.MetricsOf;
    var p := RunShards(run, shards).value;
    FailPolicySkipsNothing(run, shards);
    AscendingAscends(SkippedSceneIds(p.skipped));
  }

  /** The two lists of scenes in the manifest ascend and share no scene, and the
      evaluated ones bear ground truth. */
  lemma SceneListsAreDisjoint(run: Run, shards: seq<Shard>, entries: seq<Entry>)
    requires run.index == IndexOf(entries) && UniqueScenes(entries)
    requires Conclude(run, shards).Ok? && Conclude(run, shards).value.FinishedRun?
    ensures
      var r := Conclude(run, shards).value;
      var evaluated, skipped := r.evaluatedSceneIds, r.skips.sceneIds;
      && (forall id | id in evaluated ::
            id !in skipped && id in run.index.scenesById && run.index.scenesById[id].hasGroundTruth)
      && (forall i, j | 0 <= i < j < |evaluated| :: Before(evaluated[i], evaluated[j]))
      && (forall i, j | 0 <= i < j < |skipped| :: Before(skipped[i], skipped[j]))
  {
    hide RunShards, SummaryOf, Names.Ascending, Accumulation.TotalsOf, Accumulation.Finalized, Accumulation.MetricsOf,
      SceneIndex.IndexOf, UniqueScenes, Before;
    var p := RunShards(run, shards).value;
    EvaluatedOrSkipped(run, shards, entries);
    AscendingAscends(SkippedSceneIds(p.skipped));
    AscendingAscends(p.evaluatedSceneIds);
  }

  // ---- one result per sample ----

  ghost predicate Distinct<T(!new)>(s: seq<T>) {
    forall i, j | 0 <= i < j < |s| :: s[i] != s[j]
  }

  /** What is stored after each value has been written under its key. */
  function Written<K, V>(keys: seq<K>, values: seq<V>): map<K, V>
    requires |keys| == |values|
  {
    if keys == [] then map[]
    else Written(keys[..|keys| - 1], values[..|keys| - 1])[keys[|keys| - 1] := values[|keys| - 1]]
  }

  /** A key holds the last value written under it. */
  lemma {:induction false} WrittenLast<K(!new), V>(keys: seq<K>, values: seq<V>)
    requires |keys| == |values|
    ensures forall key :: key in Written(keys, values) <==> key in keys
    ensures forall i | 0 <= i < |keys| && keys[i] !in keys[i + 1..] :: Written(keys, values)[keys[i]] == values[i]
  {
    if keys != [] {
      var n := |keys| - 1;
      var front, fore := keys[..n], values[..n];
      WrittenLast(front, fore);
      assert keys == front + [keys[n]];
      forall i | 0 <= i < |keys| && keys[i] !in keys[i + 1..]
        ensures Written(keys, values)[keys[i]] == values[i]
      {
        if i < n {
          assert keys[n] == keys[i + 1..][n - i - 1];
          assert keys[i + 1..] == front[i + 1..] + [keys[n]];
          assert front[i] == keys[i] && fore[i] == values[i];
        }
      }
    }
  }

  /** As many values are kept as were written exactly when no key was written twice. */
  lemma {:induction false} WrittenCount<K(!new), V>(keys: seq<K>, values: seq<V>)
    requires |keys| == |values|
    ensures |Written(keys, values)| <= |keys|
    ensures |Written(keys, values)| == |keys| <==> Distinct(keys)
  {
    if keys != [] {
      hide Distinct;
      var n := |keys| - 1;
      var front, last := keys[..n], keys[n];
      WrittenCount(front, values[..n]);
      WrittenLast(front, values[..n]);
      AddedKey(Written(front, values[..n]), last, values[n]);
      DistinctSnoc(front, last);
      assert keys == front + [last];
    }
  }

  lemma AddedKey<K, V>(m: map<K, V>, key: K, value: V)
    ensures |m[key := value]| == if key in m then |m| else |m| + 1
  {
    var after := m[key := value];
    assert after.Keys == m.Keys + {key};
    assert |after| == |after.Keys| && |m| == |m.Keys|;
    if key in m {
      assert after.Keys == m.Keys;
    }
  }

  lemma DistinctSnoc<T(!new)>(s: seq<T>, x: T)
    ensures Distinct(s + [x]) <==> Distinct(s) && x !in s
  {
    var longer := s + [x];
    if Distinct(longer) {
      forall i, j | 0 <= i < j < |s|
        ensures s[i] != s[j]
      {
        assert longer[i] == s[i] && longer[j] == s[j];
      }
      forall i | 0 <= i < |s|
        ensures s[i] != x
      {
        assert longer[i] == s[i] && longer[|s|] == x;
      }
    }
  }

  lemma {:induction false} DistinctCounts<T(!new)>(s: seq<T>, x: T)
    requires Distinct(s)
    ensures multiset(s)[x] == if x in s then 1 else 0
  {
    if s != [] {
      var front := s[..|s| - 1];
      assert s == front + [s[|s| - 1]];
      DistinctCounts(front, x);
    }
  }

  lemma SameDistinct<T(!new)>(a: seq<T>, b: seq<T>)
    requires Distinct(a) && Distinct(b) && forall x :: x in a <==> x in b
    ensures multiset(a) == multiset(b)
  {
    forall x: T
      ensures multiset(a)[x] == multiset(b)[x]
    {
      DistinctCounts(a, x);
      DistinctCounts(b, x);
    }
  }

  /** The values under the given keys, in their order, a missing key left out. */
  function Lookups<K, V>(m: map<K, V>, keys: seq<K>): seq<V> {
    if keys == [] then []
    else
      var last := keys[|keys| - 1];
      Lookups(m, keys[..|keys| - 1]) + if last in m then [m[last]] else []
  }

  lemma {:induction false} LookupsConcat<K, V>(m: map<K, V>, a: seq<K>, b: seq<K>)
    ensures Lookups(m, a + b) == Lookups(m, a) + Lookups(m, b)
  {
    if b == [] {
      assert a + b == a;
    } else {
      assert (a + b)[..|a + b| - 1] == a + b[..|b| - 1];
      LookupsConcat(m, a, b[..|b| - 1]);
    }
  }

  lemma {:induction false} LookupsPermuted<K, V>(m: map<K, V>, a: seq<K>, b: seq<K>)
    requires multiset(a) == multiset(b)
    ensures multiset(Lookups(m, a)) == multiset(Lookups(m, b))
  {
    if a == [] {
      assert |multiset(b)| == 0;
    } else {
      hide Lookups;
      var front, last := a[..|a| - 1], a[|a| - 1];
      var left, right := TakeOutLast(a, b);
      assert a == front + [last];
      LookupsPermuted(m, front, left + right);
      LookupsConcat(m, front, [last]);
      LookupsConcat(m, left, right);
      LookupsConcat(m, left + [last], right);
      LookupsConcat(m, left, [last]);
    }
  }

  lemma {:induction false} LookupsAt<K, V>(m: map<K, V>, keys: seq<K>)
    requires forall key | key in keys :: key in m
    ensures |Lookups(m, keys)| == |keys| && forall i | 0 <= i < |keys| :: Lookups(m, keys)[i] == m[keys[i]]
  {
    if keys != [] {
      assert keys[|keys| - 1] in keys;
      assert forall key | key in keys[..|keys| - 1] :: key in keys;
      LookupsAt(m, keys[..|keys| - 1]);
    }
  }

  /** Written under distinct keys, the values are found again in order. */
  lemma WrittenBack<K(!new), V>(keys: seq<K>, values: seq<V>)
    requires |keys| == |values| && Distinct(keys)
    ensures forall key | key in keys :: key in Written(keys, values)
    ensures Lookups(Written(keys, values), keys) == values
  {
    WrittenLast(keys, values);
    LookupsAt(Written(keys, values), keys);
    forall i | 0 <= i < |keys|
      ensures Lookups(Written(keys, values), keys)[i] == values[i]
    {
      assert keys[i] !in keys[i + 1..];
    }
  }

  /** The sample ids of the evaluated payloads, in the order of the shards. */
  function EvaluatedIds(run: Run, shards: seq<Shard>): seq<string> {
    if shards == [] then []
    else
      var front := EvaluatedIds(run, shards[..|shards| - 1]);
      match Decide(run, shards[|shards| - 1])
      case Evaluate(_, _, payload) => front + [payload.sampleId]
      case _ => front
  }

  lemma {:induction false} ResultsAreWritten(run: Run, shards: seq<Shard>)
    requires RunShards(run, shards).Ok?
    ensures
      var p := RunShards(run, shards).value;
      |EvaluatedIds(run, shards)| == |p.evals| && p.results == Written(EvaluatedIds(run, shards), p.evals)
  {
    hide Decide, EvalOf, WarningsOf;
    if shards != [] {
      var front := shards[..|shards| - 1];
      ResultsAreWritten(run, front);
      var ids, p := EvaluatedIds(run, front), RunShards(run, front).value;
      var decision := Decide(run, shards[|shards| - 1]);
      if decision.Evaluate? {
        WrittenSnoc(ids, p.evals, decision.payload.sampleId, EvalOf(run, decision.sample, decision.payload));
      }
    }
  }

  lemma WrittenSnoc<K, V>(keys: seq<K>, values: seq<V>, key: K, value: V)
    requires |keys| == |values|
    ensures Written(keys + [key], values + [value]) == Written(keys, values)[key := value]
  {
    assert (keys + [key])[..|keys|] == keys && (values + [value])[..|keys|] == values;
  }

  /** There are as many written results as evaluated samples exactly when no two
      evaluated payloads are of the same sample; otherwise there are fewer, and each
      sample keeps its last report. */
  lemma OneResultPerSampleIff(run: Run, shards: seq<Shard>)
    requires Conclude(run, shards).Ok? && Conclude(run, shards).value.FinishedRun?
    ensures
      var r, ids := Conclude(run, shards).value, EvaluatedIds(run, shards);
      && |ids| == r.evaluatedSampleCount
      && |r.results| <= r.evaluatedSampleCount
      && (|r.results| == r.evaluatedSampleCount <==> Distinct(ids))
      && (forall id :: id in r.results <==> id in ids)
      && (forall i | 0 <= i < |ids| && ids[i] !in ids[i + 1..] ::
            r.results[ids[i]] == RunShards(run, shards).value.evals[i])
  {
    hide RunShards, EvaluatedIds, Written, Distinct, SummaryOf, SkipsOf, Names.Ascending,
      Accumulation.TotalsOf, Accumulation.Finalized, Accumulation.MetricsOf;
    ResultsAreWritten(run, shards);
    WrittenCount(EvaluatedIds(run, shards), RunShards(run, shards).value.evals);
    WrittenLast(EvaluatedIds(run, shards), RunShards(run, shards).value.evals);
  }

  /** And then the reported totals are those of the written results, added up in any
      order. */
  lemma MetricsOfWrittenResults(run: Run, shards: seq<Shard>, order: seq<string>)
    requires Conclude(run, shards).Ok? && Conclude(run, shards).value.FinishedRun?
    requires Distinct(EvaluatedIds(run, shards))
    requires Distinct(order) && forall id :: id in order <==> id in Conclude(run, shards).value.results
    ensures
      var r := Conclude(run, shards).value;
      var totals := TotalsOf(Lookups(r.results, order));
      && r.metrics == MetricsOf(totals)
      && r.classStats == totals.classStats && r.classMetrics == Finalized(totals.classStats)
      && r.predictionCount == totals.predictionCount
  {
    hide RunShards, EvaluatedIds, Written, Distinct, Lookups, SummaryOf, SkipsOf, Names.Ascending,
      Accumulation.TotalsOf, Accumulation.Finalized, Accumulation.MetricsOf;
    var ids, evals := EvaluatedIds(run, shards), RunShards(run, shards).value.evals;
    var results := Conclude(run, shards).value.results;
    OneResultPerSampleIff(run, shards);
    ResultsAreWritten(run, shards);
    WrittenBack(ids, evals);
    SameDistinct(ids, order);
    LookupsPermuted(results, ids, order);
    OrderDoesNotMatter(evals, Lookups(results, order));
  }
}
