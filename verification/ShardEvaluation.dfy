/** The detection evaluator: one pass over the prediction shards of an inference
    run, with its skip branches and its missing-ground-truth policy. */
module ShardEvaluation {
  import opened Prelude
  import opened GreedyMatching
  import opened ClassStats
  import opened SampleEvaluation
  import opened Accumulation
  import opened SceneIndex
  import opened SceneSelection
  import opened Numerics
  import opened Names
  import Ordering

  datatype Shard = Shard(sceneId: Option<string>, sampleId: Option<string>, uri: string, predictionCount: int)

  datatype Payload = Payload(sampleId: string, predictions: seq<Prediction>)

  datatype Failure =
    | MissingGroundTruth
    | PayloadUnavailable(uri: string)
    | SampleNotIndexed(sampleId: string)

  datatype SkipReason = SceneHasNoGroundTruth | SampleNotFound

  datatype SkippedShard = SkippedShard(
    sceneId: Option<string>,
    sampleId: Option<string>,
    uri: string,
    predictionCount: int,
    reason: SkipReason)

  datatype Warning =
    | SampleIdMismatch(shardSampleId: string, payloadSampleId: string, uri: string)
    | SceneIdMismatch(shardSceneId: string, payloadSceneId: string, uri: string)

  /** Everything the loop reads and never changes. */
  datatype Run = Run(
    index: Index,
    payloads: map<string, Payload>,
    missingGroundTruthFails: bool,
    dist: (Point, Point) -> real,
    limit: real)
  {
    function Scene(id: Option<string>): Option<Entry> {
      if id.Some? && id.value in index.scenesById then Some(index.scenesById[id.value]) else None
    }

    function SceneOfSample(id: string): Option<Entry> {
      if id in index.sceneBySampleId then Some(index.sceneBySampleId[id]) else None
    }
  }

  /** What one iteration of the loop does. */
  datatype Decision =
    | Fail(failure: Failure)
    | Skip(record: SkippedShard)
    | Evaluate(scene: Entry, sample: Sample, payload: Payload)

  function SkipOrFail(run: Run, record: SkippedShard): Decision {
    if run.missingGroundTruthFails then Fail(MissingGroundTruth) else Skip(record)
  }

  /** The scene the loop settles on once the payload is read: where the payload's
      sample lives, or else the scene the shard names. */
  function SettledScene(run: Run, shard: Shard, payload: Payload): Option<Entry> {
    var named, home := run.Scene(shard.sceneId), run.SceneOfSample(payload.sampleId);
    if named.Some? && home.Some? && named.value.sceneId != home.value.sceneId then home
    else if named.None? then home
    else named
  }

  function Decide(run: Run, shard: Shard): Decision {
    var named := run.Scene(shard.sceneId);
    if named.Some? && !named.value.hasGroundTruth then
      SkipOrFail(run, SkippedShard(Some(named.value.sceneId), shard.sampleId, shard.uri, shard.predictionCount,
                                   SceneHasNoGroundTruth))
    else if shard.uri !in run.payloads then
      Fail(PayloadUnavailable(shard.uri))
    else
      var payload := run.payloads[shard.uri];
      var scene := SettledScene(run, shard, payload);
      if scene.None? then
        Skip(SkippedShard(shard.sceneId, Some(payload.sampleId), shard.uri, shard.predictionCount, SampleNotFound))
      else if !scene.value.hasGroundTruth then
        SkipOrFail(run, SkippedShard(Some(scene.value.sceneId), Some(payload.sampleId), shard.uri,
                                     shard.predictionCount,
                                     SceneHasNoGroundTruth))
      else if payload.sampleId !in run.index.samplesById then
        Fail(SampleNotIndexed(payload.sampleId))
      else
        Evaluate(scene.value, run.index.samplesById[payload.sampleId], payload)
  }

  function EvalOf(run: Run, sample: Sample, payload: Payload): SampleEval {
    Report(SampleMatcher(sample.annotations, run.dist, run.limit), payload.predictions)
  }

  function WarningsOf(run: Run, shard: Shard): seq<Warning> {
    var named := run.Scene(shard.sceneId);
    if (named.Some? && !named.value.hasGroundTruth) || shard.uri !in run.payloads then []
    else
      var payload := run.payloads[shard.uri];
      var home := run.SceneOfSample(payload.sampleId);
      (if shard.sampleId.Some? && shard.sampleId.value != payload.sampleId
       then [SampleIdMismatch(shard.sampleId.value, payload.sampleId, shard.uri)] else [])
      + (if named.Some? && home.Some? && named.value.sceneId != home.value.sceneId
         then [SceneIdMismatch(named.value.sceneId, home.value.sceneId, shard.uri)] else [])
  }

  /** The loop's variables. */
  datatype Progress = Progress(
    evals: seq<SampleEval>,
    evaluatedSceneIds: set<string>,
    skipped: seq<SkippedShard>,
    skippedPredictionCount: int,
    warnings: seq<Warning>,
    results: map<string, SampleEval>)

  function NoProgress(): Progress {
    Progress([], {}, [], 0, [], map[])
  }

  function Advance(run: Run, before: Progress, shard: Shard): Result<Progress, Failure> {
    var warned := before.(warnings := before.warnings + WarningsOf(run, shard));
    match Decide(run, shard)
    case Fail(failure) => Err(failure)
    case Skip(record) =>
      Ok(warned.(skipped := before.skipped + [record],
                 skippedPredictionCount := before.skippedPredictionCount + shard.predictionCount))
    case Evaluate(scene, sample, payload) =>
      Ok(warned.(evals := before.evals + [EvalOf(run, sample, payload)],
                 evaluatedSceneIds := before.evaluatedSceneIds + {scene.sceneId},
                 results := before.results[payload.sampleId := EvalOf(run, sample, payload)]))
  }

  function RunShards(run: Run, shards: seq<Shard>): Result<Progress, Failure> {
    if shards == [] then Ok(NoProgress())
    else
      match RunShards(run, shards[..|shards| - 1])
      case Err(failure) => Err(failure)
      case Ok(before) => Advance(run, before, shards[|shards| - 1])
  }

  function PredictionSum(shards: seq<Shard>): int {
    if shards == [] then 0 else PredictionSum(shards[..|shards| - 1]) + shards[|shards| - 1].predictionCount
  }

  /** What the manifest says of the skipped shards: the records it shows are cut. */
  datatype SkipSummary = SkipSummary(
    shardCount: int,
    predictionCount: int,
    shown: seq<SkippedShard>,
    sceneIds: seq<string>,
    warnings: seq<Warning>)

  /** The index as the manifest shows it. */
  datatype SceneSummary = SceneSummary(
    sceneId: string,
    sampleCount: int,
    frameCount: int,
    annotationCount: int,
    hasGroundTruth: bool,
    groundTruthSource: Option<string>)

  datatype IndexSummary = IndexSummary(
    sceneCount: int,
    sampleCount: int,
    frameCount: int,
    annotationCount: int,
    groundTruthSceneCount: int,
    scenes: seq<SceneSummary>)

  function Summarize(scene: Entry): SceneSummary {
    SceneSummary(scene.sceneId, scene.sampleCount, scene.frameCount, scene.annotationCount,
                 scene.hasGroundTruth, scene.groundTruthSource)
  }

  function SummaryOf(index: Index): IndexSummary {
    IndexSummary(|index.scenes|, index.sampleCount, index.frameCount, index.annotationCount,
                 index.groundTruthSceneCount,
                 seq(|index.scenes|, i requires 0 <= i < |index.scenes| => Summarize(index.scenes[i])))
  }

  datatype Evaluation =
    | SkippedDataset(summary: IndexSummary, skippedShardCount: int, skippedPredictionCount: int)
    | SkippedRun(summary: IndexSummary, skips: SkipSummary)
    | FinishedRun(
        summary: IndexSummary,
        metrics: RunMetrics,
        classMetrics: ClassTable,
        classStats: Stats,
        evaluatedSampleCount: int,
        predictionCount: int,
        skips: SkipSummary,
        evaluatedSceneIds: seq<string>,
        results: map<string, SampleEval>)

  function SkippedSceneIds(skipped: seq<SkippedShard>): set<string> {
    set r | r in skipped && r.sceneId.Some? && r.sceneId.value != "" :: r.sceneId.value
  }

  ghost function SkipsOf(p: Progress): SkipSummary {
    SkipSummary(|p.skipped|, p.skippedPredictionCount, FirstHundred(p.skipped),
                Ascending(SkippedSceneIds(p.skipped)), FirstHundred(p.warnings))
  }

  ghost function Conclude(run: Run, shards: seq<Shard>): Result<Evaluation, Failure> {
    if run.index.annotationCount == 0 then
      if run.missingGroundTruthFails then Err(MissingGroundTruth)
      else Ok(SkippedDataset(SummaryOf(run.index), |shards|, PredictionSum(shards)))
    else
      match RunShards(run, shards)
      case Err(failure) => Err(failure)
      case Ok(p) =>
        if p.evals == [] then
          if run.missingGroundTruthFails then Err(MissingGroundTruth)
          else Ok(SkippedRun(SummaryOf(run.index), SkipsOf(p)))
        else
          var totals := TotalsOf(p.evals);
          Ok(FinishedRun(SummaryOf(run.index), MetricsOf(totals), Finalized(totals.classStats), totals.classStats,
                         |p.evals|, totals.predictionCount, SkipsOf(p), Ascending(p.evaluatedSceneIds),
                         p.results))
  }

  /** The evaluator itself. A failed read, an unindexed sample or the fail policy
      ends it early, as an exception does. */
  method EvaluateDetection(refs: seq<SceneRef>, store: SceneStore, shards: seq<Shard>, payloads: map<string, Payload>,
                           missingGroundTruthFails: bool, dist: (Point, Point) -> real, limit: real)
    returns (result: Result<Evaluation, Failure>)
    ensures result ==
      Conclude(Run(IndexOf(Entries(refs, store)), payloads, missingGroundTruthFails, dist, limit), shards)
  {
    hide Report, Accumulation.MetricsOf, Accumulation.Finalized, Totals.Add, EvalOf, Accumulation.NoTotals;
    hide SkippedSceneIds, SummaryOf, Names.Ascending, FirstHundred;
    var index := BuildSceneIndex(refs, store);
    var run := Run(index, payloads, missingGroundTruthFails, dist, limit);
    if index.annotationCount == 0 {
      if missingGroundTruthFails {
        return Err(MissingGroundTruth);
      }
      return Ok(SkippedDataset(SummaryOf(index), |shards|, PredictionSum(shards)));
    }
    var accumulator := new EvaluationAccumulator();
    var evaluatedCount, skippedShardCount, skippedPredictionCount := 0, 0, 0;
    var skipped: seq<SkippedShard> := [];
    var evaluatedSceneIds: set<string> := {};
    var warnings: seq<Warning> := [];
    var results: map<string, SampleEval> := map[];
    ghost var p := NoProgress();
    for i := 0 to |shards|
      invariant fresh(accumulator)
      invariant RunShards(run, shards[..i]) == Ok(p)
      invariant accumulator.State() == TotalsOf(p.evals)
      invariant evaluatedCount == |p.evals| && skippedShardCount == |p.skipped|
      invariant skippedPredictionCount == p.skippedPredictionCount
      invariant skipped == p.skipped && warnings == p.warnings
      invariant evaluatedSceneIds == p.evaluatedSceneIds && results == p.results
    {
      RunSnoc(run, shards, i);
      var shard := shards[i];
      var decision, noted := VisitShard(run, shard);
      if decision.Fail? {
        RunFails(run, shards, i + 1);
        return Err(decision.failure);
      }
      warnings := warnings + noted;
      if decision.Skip? {
        skippedShardCount := skippedShardCount + 1;
        skippedPredictionCount := skippedPredictionCount + shard.predictionCount;
        skipped := skipped + [decision.record];
      } else {
        var eval := EvaluateSample(decision.sample.annotations, decision.payload.predictions, dist, limit);
        EvalIsReport(run, decision.sample, decision.payload);
        accumulator.Add(eval);
        TotalsSnoc(p.evals, eval);
        evaluatedCount := evaluatedCount + 1;
        evaluatedSceneIds := evaluatedSceneIds + {decision.scene.sceneId};
        results := results[decision.payload.sampleId := eval];
      }
      p := Advance(run, p, shard).value;
    }
    assert shards[..|shards|] == shards;
    var skippedSceneIds := SortNames(SkippedSceneIds(skipped));
    var skips := SkipSummary(skippedShardCount, skippedPredictionCount, FirstHundred(skipped),
                             skippedSceneIds, FirstHundred(warnings));
    if evaluatedCount == 0 {
      if missingGroundTruthFails {
        return Err(MissingGroundTruth);
      }
      return Ok(SkippedRun(SummaryOf(index), skips));
    }
    var metrics := accumulator.BuildMetrics();
    var classMetrics := accumulator.BuildClassMetrics();
    var sceneIds := SortNames(evaluatedSceneIds);
    result := Ok(FinishedRun(SummaryOf(index), metrics, classMetrics, accumulator.classStats, evaluatedCount,
                             accumulator.rawPredictionCount, skips, sceneIds, results));
  }

  /** The lookups and branches of one iteration, in the order the loop takes them. */
  method VisitShard(run: Run, shard: Shard) returns (decision: Decision, warnings: seq<Warning>)
    ensures decision == Decide(run, shard) && warnings == WarningsOf(run, shard)
  {
    warnings := [];
    var scene := run.Scene(shard.sceneId);
    if scene.Some? && !scene.value.hasGroundTruth {
      decision := SkipOrFail(run, SkippedShard(Some(scene.value.sceneId), shard.sampleId, shard.uri,
                                               shard.predictionCount, SceneHasNoGroundTruth));
      return;
    }
    if shard.uri !in run.payloads {
      decision := Fail(PayloadUnavailable(shard.uri));
      return;
    }
    var payload := run.payloads[shard.uri];
    var sampleId := payload.sampleId;
    if shard.sampleId.Some? && shard.sampleId.value != sampleId {
      warnings := warnings + [SampleIdMismatch(shard.sampleId.value, sampleId, shard.uri)];
    }
    var home := run.SceneOfSample(sampleId);
    if scene.Some? && home.Some? && scene.value.sceneId != home.value.sceneId {
      warnings := warnings + [SceneIdMismatch(scene.value.sceneId, home.value.sceneId, shard.uri)];
      scene := home;
    }
    if scene.None? {
      scene := home;
    }
    if scene.None? {
      decision := Skip(SkippedShard(shard.sceneId, Some(sampleId), shard.uri, shard.predictionCount, SampleNotFound));
    } else if !scene.value.hasGroundTruth {
      decision := SkipOrFail(run, SkippedShard(Some(scene.value.sceneId), Some(sampleId), shard.uri,
                                               shard.predictionCount, SceneHasNoGroundTruth));
    } else if sampleId !in run.index.samplesById {
      decision := Fail(SampleNotIndexed(sampleId));
    } else {
      decision := Evaluate(scene.value, run.index.samplesById[sampleId], payload);
    }
  }

  lemma EvalIsReport(run: Run, sample: Sample, payload: Payload)
    ensures EvalOf(run, sample, payload) ==
      Report(SampleMatcher(sample.annotations, run.dist, run.limit), payload.predictions)
  {
    hide Report;
  }

  lemma TotalsSnoc(evals: seq<SampleEval>, e: SampleEval)
    ensures TotalsOf(evals + [e]) == TotalsOf(evals).Add(e)
  {
    hide Totals.Add;
    assert (evals + [e])[..|evals|] == evals;
  }

  lemma RunSnoc(run: Run, shards: seq<Shard>, i: nat)
    requires i < |shards| && RunShards(run, shards[..i]).Ok?
    ensures RunShards(run, shards[..i + 1]) == Advance(run, RunShards(run, shards[..i]).value, shards[i])
  {
    hide Advance;
    assert shards[..i + 1][..i] == shards[..i];
  }

  /** A failure in a prefix is the failure of the whole loop. */
  lemma {:induction false} RunFails(run: Run, shards: seq<Shard>, n: nat)
    requires n <= |shards| && RunShards(run, shards[..n]).Err?
    ensures RunShards(run, shards) == RunShards(run, shards[..n])
  {
    hide Advance;
    if n < |shards| {
      var front := shards[..|shards| - 1];
      assert front[..n] == shards[..n];
      RunFails(run, front, n);
    } else {
      assert shards[..n] == shards;
    }
  }

  // ---- conservation ----

  /** Every shard of a completed loop was either evaluated or skipped. */
  lemma {:induction false} ShardsConserved(run: Run, shards: seq<Shard>)
    requires RunShards(run, shards).Ok?
    ensures |RunShards(run, shards).value.evals| + |RunShards(run, shards).value.skipped| == |shards|
  {
    hide Decide, EvalOf;
    if shards != [] {
      ShardsConserved(run, shards[..|shards| - 1]);
    }
  }

  /** The recorded counts of the shards match their payloads. */
  ghost predicate CountsMatch(run: Run, shards: seq<Shard>) {
    forall i | 0 <= i < |shards| && shards[i].uri in run.payloads ::
      shards[i].predictionCount == |run.payloads[shards[i].uri].predictions|
  }

  lemma EvalCounts(run: Run, sample: Sample, payload: Payload)
    ensures EvalOf(run, sample, payload).predictionCount == |payload.predictions|
    ensures
      var e := EvalOf(run, sample, payload);
      e.tp + e.fp + e.liftingFailedCount == |payload.predictions|
  {
    PredictionsConserved(SampleMatcher(sample.annotations, run.dist, run.limit), payload.predictions);
  }

  /** Hits, false positives, failed lifts and skipped predictions add up to the
      predictions the shards announce. */
  lemma {:induction false} PredictionsAddUp(run: Run, shards: seq<Shard>)
    requires RunShards(run, shards).Ok? && CountsMatch(run, shards)
    ensures
      var p := RunShards(run, shards).value;
      var t := TotalsOf(p.evals);
      && t.tp + t.fp + t.liftingFailedCount + p.skippedPredictionCount == PredictionSum(shards)
      && t.predictionCount + p.skippedPredictionCount == PredictionSum(shards)
  {
    hide EvalOf, ClassStats.Merged;
    if shards != [] {
      var front, last := shards[..|shards| - 1], shards[|shards| - 1];
      PredictionsAddUp(run, front);
      var before := RunShards(run, front).value;
      var decision := Decide(run, last);
      if decision.Evaluate? {
        EvalCounts(run, decision.sample, decision.payload);
        TotalsSnoc(before.evals, EvalOf(run, decision.sample, decision.payload));
        DecisionPayload(run, last);
      }
    }
  }

  lemma DecisionPayload(run: Run, shard: Shard)
    requires Decide(run, shard).Evaluate?
    ensures shard.uri in run.payloads && Decide(run, shard).payload == run.payloads[shard.uri]
    ensures Decide(run, shard).scene.hasGroundTruth
  {
  }

  /** Under the fail policy a completed loop skipped no shard for missing ground truth. */
  lemma {:induction false} FailPolicySkipsNothing(run: Run, shards: seq<Shard>)
    requires run.missingGroundTruthFails && RunShards(run, shards).Ok?
    ensures forall r | r in RunShards(run, shards).value.skipped ::
      r.reason == SampleNotFound && (r.sceneId.Some? ==> r.sceneId.value !in run.index.scenesById)
  {
    hide EvalOf;
    if shards != [] {
      FailPolicySkipsNothing(run, shards[..|shards| - 1]);
    }
  }

  /** The loop completes exactly when no shard on its own makes it fail. */
  lemma {:induction false} CompletesIffNoShardFails(run: Run, shards: seq<Shard>)
    ensures RunShards(run, shards).Ok? <==> forall i | 0 <= i < |shards| :: !Decide(run, shards[i]).Fail?
  {
    hide Decide, EvalOf, WarningsOf;
    if shards != [] {
      var front := shards[..|shards| - 1];
      CompletesIffNoShardFails(run, front);
      assert forall i | 0 <= i < |front| :: front[i] == shards[i];
    }
  }

  /** A scene is never both evaluated and reported as skipped. */
  lemma {:induction false} EvaluatedOrSkipped(run: Run, shards: seq<Shard>, entries: seq<Entry>)
    requires run.index == IndexOf(entries) && UniqueScenes(entries)
    requires RunShards(run, shards).Ok?
    ensures
      var p := RunShards(run, shards).value;
      && (forall id | id in p.evaluatedSceneIds ::
            id in run.index.scenesById && run.index.scenesById[id].hasGroundTruth)
      && (forall r | r in p.skipped && r.sceneId.Some? :: r.sceneId.value !in p.evaluatedSceneIds)
  {
    hide EvalOf, SceneIndex.IndexOf, UniqueScenes;
    if shards != [] {
      var front, last := shards[..|shards| - 1], shards[|shards| - 1];
      EvaluatedOrSkipped(run, front, entries);
      SkippedLackGroundTruth(run, shards, entries);
      var decision := Decide(run, last);
      if decision.Evaluate? {
        EvaluatedSceneIsIndexed(run, last, entries);
      }
    }
  }

  lemma EvaluatedSceneIsIndexed(run: Run, shard: Shard, entries: seq<Entry>)
    requires run.index == IndexOf(entries) && UniqueScenes(entries)
    requires Decide(run, shard).Evaluate?
    ensures
      var scene := Decide(run, shard).scene;
      scene.sceneId in run.index.scenesById && run.index.scenesById[scene.sceneId] == scene && scene.hasGroundTruth
  {
    hide SceneIndex.IndexOf, UniqueScenes;
    IndexLockstep(entries);
    var scene := Decide(run, shard).scene;
    assert scene in entries;
    var i :| 0 <= i < |entries| && entries[i] == scene;
    SceneIsFound(entries, i);
  }

  /** A scene named by a skip record is unknown to the index or bears no ground truth. */
  lemma {:induction false} SkippedLackGroundTruth(run: Run, shards: seq<Shard>, entries: seq<Entry>)
    requires run.index == IndexOf(entries) && UniqueScenes(entries)
    requires RunShards(run, shards).Ok?
    ensures
      forall r | r in RunShards(run, shards).value.skipped && r.sceneId.Some? ::
        r.sceneId.value in run.index.scenesById ==> !run.index.scenesById[r.sceneId.value].hasGroundTruth
  {
    hide EvalOf, SceneIndex.IndexOf, UniqueScenes;
    if shards != [] {
      SkippedLackGroundTruth(run, shards[..|shards| - 1], entries);
      var decision := Decide(run, shards[|shards| - 1]);
      if decision.Skip? && decision.record.sceneId.Some? {
        SkipRecordLacks(run, shards[|shards| - 1], entries);
      }
    }
  }

  lemma SkipRecordLacks(run: Run, shard: Shard, entries: seq<Entry>)
    requires run.index == IndexOf(entries) && UniqueScenes(entries)
    requires Decide(run, shard).Skip? && Decide(run, shard).record.sceneId.Some?
    ensures
      var id := Decide(run, shard).record.sceneId.value;
      id in run.index.scenesById ==> !run.index.scenesById[id].hasGroundTruth
  {
    hide SceneIndex.IndexOf, UniqueScenes;
    IndexLockstep(entries);
    if shard.uri in run.payloads {
      var payload := run.payloads[shard.uri];
      var scene := SettledScene(run, shard, payload);
      if scene.Some? {
        assert scene.value in entries;
        var i :| 0 <= i < |entries| && entries[i] == scene.value;
        SceneIsFound(entries, i);
      }
    }
  }

  // ---- what a finished run reports ----

  ghost predicate ReportedWell(run: Run, e: SampleEval) {
    Exact(e) && WithinReach(e.totalError, e.matchedCount, run.limit) && e.matchedCount == e.tp
  }

  lemma EvalReportsWell(run: Run, sample: Sample, payload: Payload)
    ensures ReportedWell(run, EvalOf(run, sample, payload))
  {
    hide Exact, WithinReach, SampleEvaluation.IsSupported;
    var m := SampleMatcher(sample.annotations, run.dist, run.limit);
    ReportsAreExact(m, payload.predictions);
    ReportsStayWithinReach(m, payload.predictions);
  }

  lemma {:induction false} RunReportsWell(run: Run, shards: seq<Shard>)
    requires RunShards(run, shards).Ok?
    ensures forall e | e in RunShards(run, shards).value.evals :: ReportedWell(run, e)
  {
    hide ReportedWell, EvalOf;
    if shards != [] {
      var decision := Decide(run, shards[|shards| - 1]);
      RunReportsWell(run, shards[..|shards| - 1]);
      if decision.Evaluate? {
        EvalReportsWell(run, decision.sample, decision.payload);
      }
    }
  }

  lemma {:induction false} EveryHitIsMatched(evals: seq<SampleEval>)
    requires forall e | e in evals :: e.matchedCount == e.tp
    ensures TotalsOf(evals).matchedCount == TotalsOf(evals).tp
  {
    hide ClassStats.Merged;
    if evals != [] {
      assert evals[|evals| - 1] in evals;
      EveryHitIsMatched(evals[..|evals| - 1]);
    }
  }

  /** In the result of a finished run the class counts sum to the reported ones, the
      ratios are shares, and the mean error stays within the rounded match distance. */
  lemma FinishedRunAddsUp(run: Run, shards: seq<Shard>)
    requires Conclude(run, shards).Ok? && Conclude(run, shards).value.FinishedRun?
    ensures
      var r := Conclude(run, shards).value;
      && 0 <= r.metrics.tp && 0 <= r.metrics.fp && 0 <= r.metrics.fn
      && r.metrics.evaluableCount == r.metrics.tp + r.metrics.fp
      && Sum(r.classStats) == Counts(r.metrics.tp, r.metrics.fp, r.metrics.fn)
      && r.classMetrics.reports.Keys == r.classStats.Keys
      && 0.0 <= r.metrics.precision <= 1.0 && 0.0 <= r.metrics.recall <= 1.0
      && (r.metrics.tp > 0 ==> r.metrics.meanError <= Round6(run.limit))
  {
    hide RunShards, WithinReach, Numerics.Round6, Numerics.SafeDiv, SampleEvaluation.Ratio, ClassStats.Sum,
      Accumulation.TotalsOf, FirstHundred, SkippedSceneIds, Names.Ascending, SummaryOf;
    var evals := RunShards(run, shards).value.evals;
    RunReportsWell(run, shards);
    ClassSumsAreTotals(evals);
    RatiosInRange(evals);
    MeanInRange(run, evals);
  }

  lemma RatiosInRange(evals: seq<SampleEval>)
    requires forall e | e in evals :: Exact(e)
    ensures 0.0 <= MetricsOf(TotalsOf(evals)).precision <= 1.0
    ensures 0.0 <= MetricsOf(TotalsOf(evals)).recall <= 1.0
  {
    hide Exact, Accumulation.MetricsOf;
    MetricsAreShares(evals);
  }

  lemma MeanInRange(run: Run, evals: seq<SampleEval>)
    requires forall e | e in evals :: ReportedWell(run, e)
    ensures MetricsOf(TotalsOf(evals)).tp > 0 ==> MetricsOf(TotalsOf(evals)).meanError <= Round6(run.limit)
  {
    hide Exact, WithinReach, Numerics.Round6, Numerics.SafeDiv, SampleEvaluation.Ratio;
    RunErrorBound(evals, run.limit);
    EveryHitIsMatched(evals);
  }

  /** And its precision lies between those of two of its classes with predictions. */
  lemma FinishedRunIsPooled(run: Run, shards: seq<Shard>) returns (worst: string, best: string)
    requires Conclude(run, shards).Ok? && Conclude(run, shards).value.FinishedRun?
    requires Conclude(run, shards).value.metrics.evaluableCount > 0
    ensures
      var r := Conclude(run, shards).value;
      var classes := r.classMetrics.reports;
      && worst in classes && classes[worst].tp + classes[worst].fp > 0
      && best in classes && classes[best].tp + classes[best].fp > 0
      && classes[worst].precision <= r.metrics.precision <= classes[best].precision
  {
    hide RunShards, WithinReach, SampleEvaluation.Ratio, ClassStats.Sum;
    var evals := RunShards(run, shards).value.evals;
    RunReportsWell(run, shards);
    worst, best := PooledPrecision(evals);
  }

  // ---- the order of the shards does not matter ----

  function Evals(run: Run, shards: seq<Shard>): seq<SampleEval> {
    if shards == [] then []
    else
      var front := Evals(run, shards[..|shards| - 1]);
      match Decide(run, shards[|shards| - 1])
      case Evaluate(_, sample, payload) => front + [EvalOf(run, sample, payload)]
      case _ => front
  }

  lemma {:induction false} EvalsOfRun(run: Run, shards: seq<Shard>)
    requires RunShards(run, shards).Ok?
    ensures RunShards(run, shards).value.evals == Evals(run, shards)
  {
    hide Decide, EvalOf, WarningsOf;
    if shards != [] {
      EvalsOfRun(run, shards[..|shards| - 1]);
    }
  }

  lemma {:induction false} EvalsConcat(run: Run, a: seq<Shard>, b: seq<Shard>)
    ensures Evals(run, a + b) == Evals(run, a) + Evals(run, b)
  {
    hide Decide, EvalOf;
    if b == [] {
      assert a + b == a;
    } else {
      EvalsConcat(run, a, b[..|b| - 1]);
      assert (a + b)[..|a + b| - 1] == a + b[..|b| - 1];
    }
  }

  lemma {:induction false} EvalsPermuted(run: Run, a: seq<Shard>, b: seq<Shard>)
    requires multiset(a) == multiset(b)
    ensures multiset(Evals(run, a)) == multiset(Evals(run, b))
  {
    if a == [] {
      assert |multiset(b)| == 0;
    } else {
      hide Decide, EvalOf;
      var front, last := a[..|a| - 1], a[|a| - 1];
      var left, right := TakeOutLast(a, b);
      assert a == front + [last];
      EvalsPermuted(run, front, left + right);
      EvalsConcat(run, front, [last]);
      EvalsConcat(run, left, right);
      EvalsConcat(run, left + [last], right);
      EvalsConcat(run, left, [last]);
    }
  }

  /** Whatever the order of the shards, the loop completes or not, and when it does
      it reaches the same totals, the same class statistics and the same number of
      skips. */
  lemma ShardOrderDoesNotMatter(run: Run, a: seq<Shard>, b: seq<Shard>)
    requires multiset(a) == multiset(b)
    ensures RunShards(run, a).Ok? <==> RunShards(run, b).Ok?
    ensures RunShards(run, a).Ok? ==>
      var p, q := RunShards(run, a).value, RunShards(run, b).value;
      && TotalsOf(p.evals) == TotalsOf(q.evals)
      && |p.evals| == |q.evals|
      && |p.skipped| == |q.skipped|
  {
    hide Decide, EvalOf, RunShards, Evals, Accumulation.TotalsOf;
    CompletesIffNoShardFails(run, a);
    CompletesIffNoShardFails(run, b);
    Ordering.SameMembers(a, b);
    assert forall i | 0 <= i < |a| :: a[i] in b;
    assert forall i | 0 <= i < |b| :: b[i] in a;
    if RunShards(run, a).Ok? && RunShards(run, b).Ok? {
      EvalsOfRun(run, a);
      EvalsOfRun(run, b);
      EvalsPermuted(run, a, b);
      OrderDoesNotMatter(Evals(run, a), Evals(run, b));
      ShardsConserved(run, a);
      ShardsConserved(run, b);
      assert |a| == |multiset(a)| == |b|;
      assert |Evals(run, a)| == |multiset(Evals(run, a))| == |Evals(run, b)|;
    }
  }

  // ---- selection and evaluation together ----

  /** A shard that carries a sample of a scene chosen in ground-truth mode is
      evaluated: it is neither skipped nor a failure, whatever the policy. It may name
      no scene, an unknown one, or any that bears ground truth. */
  lemma ChosenSampleIsEvaluated(refs: seq<SceneRef>, store: SceneStore, config: Config, k: nat,
                                run: Run, shard: Shard, x: Sample)
    requires config.mode.GroundTruthOnly?
    requires UniqueScenes(Entries(refs, store)) && UniqueSamples(Entries(refs, store))
    requires k < |AtMost(Eligibles(refs, store, config), config.Limit())|
    requires x in Eligibles(refs, store, config)[k].samples
    requires run.index == IndexOf(Entries(refs, store))
    requires run.Scene(shard.sceneId).Some? ==> run.Scene(shard.sceneId).value.hasGroundTruth
    requires shard.uri in run.payloads && run.payloads[shard.uri].sampleId == x.sampleId
    ensures
      var decision := Decide(run, shard);
      && decision.Evaluate?
      && decision.scene.manifest == Eligibles(refs, store, config)[k]
      && decision.sample == x
  {
    hide SceneIndex.IndexOf, UniqueScenes, UniqueSamples, SceneIndex.Entries, SceneSelection.Eligibles;
    var i := ChosenIsIndexed(refs, store, config, k);
    SceneIsFound(Entries(refs, store), i);
    SampleIsFound(Entries(refs, store), i, x);
    IndexLockstep(Entries(refs, store));
  }
}
