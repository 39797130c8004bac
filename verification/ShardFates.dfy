/** What becomes of each shard, told from the index and the payloads alone, and what the
    manifest of a run lists because of it. */
module ShardFates {
  import opened Prelude
  import opened SampleEvaluation
  import opened SceneIndex
  import opened ShardEvaluation
  import opened Accumulation
  import opened Names

  // ---- one shard ----

  /** The shard names a scene of the index. */
  predicate NamesScene(run: Run, shard: Shard) {
    shard.sceneId.Some? && shard.sceneId.value in run.index.scenesById
  }

  predicate NamesBareScene(run: Run, shard: Shard) {
    NamesScene(run, shard) && !run.index.scenesById[shard.sceneId.value].hasGroundTruth
  }

  /** Where the sample of the shard's payload lives. */
  function HomeOf(run: Run, shard: Shard): Option<Entry> {
    if shard.uri in run.payloads && run.payloads[shard.uri].sampleId in run.index.sceneBySampleId
    then Some(run.index.sceneBySampleId[run.payloads[shard.uri].sampleId])
    else None
  }

  /** The sample lives in a scene without ground truth, and the shard does not name
      another scene by the same id. */
  predicate LivesInBareScene(run: Run, shard: Shard) {
    var home := HomeOf(run, shard);
    home.Some? && !home.value.hasGroundTruth && shard.sceneId != Some(home.value.sceneId)
  }

  predicate IsEvaluated(run: Run, shard: Shard) {
    !NamesBareScene(run, shard) && HomeOf(run, shard).Some? && !LivesInBareScene(run, shard)
  }

  predicate LacksGroundTruth(run: Run, shard: Shard) {
    NamesBareScene(run, shard) || LivesInBareScene(run, shard)
  }

  predicate HasNoScene(run: Run, shard: Shard) {
    !NamesScene(run, shard) && shard.uri in run.payloads && HomeOf(run, shard).None?
  }

  /** The scene that a skipped shard is reported under. */
  function ReportedScene(run: Run, shard: Shard): Option<string> {
    if LivesInBareScene(run, shard) && !NamesBareScene(run, shard) then Some(HomeOf(run, shard).value.sceneId)
    else shard.sceneId
  }

  /** Read for its sample, if the shard got that far. */
  function ReportedSample(run: Run, shard: Shard): Option<string> {
    if NamesBareScene(run, shard) || shard.uri !in run.payloads then shard.sampleId
    else Some(run.payloads[shard.uri].sampleId)
  }

  function SkipRecord(run: Run, shard: Shard): SkippedShard {
    SkippedShard(ReportedScene(run, shard), ReportedSample(run, shard), shard.uri, shard.predictionCount,
                 if LacksGroundTruth(run, shard) then SceneHasNoGroundTruth else SampleNotFound)
  }

  lemma IndexedUnderOwnId(entries: seq<Entry>)
    ensures
      var index := IndexOf(entries);
      && (forall id | id in index.scenesById :: index.scenesById[id].sceneId == id)
      && (forall x | x in index.sceneBySampleId :: index.sceneBySampleId[x].sceneId in index.scenesById)
      && index.samplesById.Keys == index.sceneBySampleId.Keys
  {
    hide SceneIndex.IndexOf;
    IndexLockstep(entries);
    var index := IndexOf(entries);
    forall x | x in index.sceneBySampleId
      ensures index.sceneBySampleId[x].sceneId in index.scenesById
    {
      assert index.sceneBySampleId[x] in entries;
      var i :| 0 <= i < |entries| && entries[i] == index.sceneBySampleId[x];
      var j := SomeIsLast(entries, i);
      LastIsFound(entries, j);
    }
  }

  /** A shard is evaluated exactly when its sample lives in an indexed scene, and neither
      that scene nor the one it names lacks ground truth. */
  lemma EvaluatedIff(run: Run, shard: Shard, entries: seq<Entry>)
    requires run.index == IndexOf(entries)
    ensures Decide(run, shard).Evaluate? <==> IsEvaluated(run, shard)
    ensures Decide(run, shard).Evaluate? ==>
      var decision, id := Decide(run, shard), run.payloads[shard.uri].sampleId;
      && decision.payload == run.payloads[shard.uri]
      && id in run.index.samplesById && decision.sample == run.index.samplesById[id]
      && decision.scene.sceneId == run.index.sceneBySampleId[id].sceneId
      && decision.scene.hasGroundTruth
  {
    hide SceneIndex.IndexOf;
    IndexedUnderOwnId(entries);
  }

  /** It is skipped exactly when its scene lacks ground truth and the policy allows it, or
      its sample has no scene; and the record says which, and of what. */
  lemma SkippedIff(run: Run, shard: Shard, entries: seq<Entry>)
    requires run.index == IndexOf(entries)
    ensures
      Decide(run, shard).Skip? <==>
        (LacksGroundTruth(run, shard) && !run.missingGroundTruthFails) || HasNoScene(run, shard)
    ensures Decide(run, shard).Skip? ==>
      Decide(run, shard).record == SkipRecord(run, shard)
  {
    hide SceneIndex.IndexOf;
    IndexedUnderOwnId(entries);
  }

  /** Any other shard fails the run, each for its own reason. */
  lemma FailsIff(run: Run, shard: Shard, entries: seq<Entry>)
    requires run.index == IndexOf(entries)
    ensures
      Decide(run, shard) == Fail(MissingGroundTruth) <==>
        LacksGroundTruth(run, shard) && run.missingGroundTruthFails
    ensures
      Decide(run, shard) == Fail(PayloadUnavailable(shard.uri)) <==>
        !NamesBareScene(run, shard) && shard.uri !in run.payloads
    ensures forall id ::
      Decide(run, shard) == Fail(SampleNotIndexed(id)) <==>
        && NamesScene(run, shard) && !NamesBareScene(run, shard)
        && shard.uri in run.payloads && HomeOf(run, shard).None? && id == run.payloads[shard.uri].sampleId
  {
    hide SceneIndex.IndexOf;
    IndexedUnderOwnId(entries);
  }

  /** With unique scene ids, a shard whose sample lives in a scene without ground truth is
      never evaluated, whatever scene it names. */
  lemma BareSamplesAreNotEvaluated(run: Run, shard: Shard, entries: seq<Entry>)
    requires run.index == IndexOf(entries) && UniqueScenes(entries)
    requires HomeOf(run, shard).Some? && !HomeOf(run, shard).value.hasGroundTruth
    ensures !Decide(run, shard).Evaluate?
  {
    hide SceneIndex.IndexOf, UniqueScenes;
    EvaluatedIff(run, shard, entries);
    IndexLockstep(entries);
    var home := HomeOf(run, shard).value;
    assert home in entries;
    var i :| 0 <= i < |entries| && entries[i] == home;
    SceneIsFound(entries, i);
  }

  // ---- warnings ----

  /** The shard's payload is of another sample than the shard says, or lives in another
      scene; noticed only if the payload is read. */
  predicate Warns(run: Run, shard: Shard, w: Warning) {
    && !NamesBareScene(run, shard) && shard.uri in run.payloads && w.uri == shard.uri
    && match w
       case SampleIdMismatch(named, found, _) =>
         shard.sampleId == Some(named) && found == run.payloads[shard.uri].sampleId && named != found
       case SceneIdMismatch(named, found, _) =>
         && NamesScene(run, shard) && shard.sceneId == Some(named) && named != found
         && HomeOf(run, shard).Some? && HomeOf(run, shard).value.sceneId == found
  }

  lemma WarningsAre(run: Run, shard: Shard, entries: seq<Entry>)
    requires run.index == IndexOf(entries)
    ensures forall w :: w in WarningsOf(run, shard) <==> Warns(run, shard, w)
  {
    hide SceneIndex.IndexOf;
    IndexedUnderOwnId(entries);
  }

  // ---- all shards ----

  /** What a completed loop has gathered, shard by shard. */
  ghost predicate Gathered(run: Run, shards: seq<Shard>, p: Progress) {
    && (forall id :: id in p.evaluatedSceneIds <==> exists x :: LivesIn(run, p.results, x, id))
    && (forall r :: r in p.skipped <==> exists i :: 0 <= i < |shards| && Decide(run, shards[i]) == Skip(r))
    && (forall w :: w in p.warnings <==> exists i :: 0 <= i < |shards| && w in WarningsOf(run, shards[i]))
  }

  /** The sample has a result, and lives in the scene of that id. */
  predicate LivesIn(run: Run, results: map<string, SampleEval>, sampleId: string, sceneId: string) {
    && sampleId in results && sampleId in run.index.sceneBySampleId
    && run.index.sceneBySampleId[sampleId].sceneId == sceneId
  }

  lemma {:induction false} LoopGathers(run: Run, shards: seq<Shard>, entries: seq<Entry>)
    requires run.index == IndexOf(entries) && RunShards(run, shards).Ok?
    ensures Gathered(run, shards, RunShards(run, shards).value)
  {
    hide SceneIndex.IndexOf, Decide, EvalOf, WarningsOf, Gathered;
    if shards == [] {
      NothingGathered(run);
    } else {
      var front, last := shards[..|shards| - 1], shards[|shards| - 1];
      LoopGathers(run, front, entries);
      assert shards == front + [last];
      GatheredOneMore(run, front, last, RunShards(run, front).value, entries);
    }
  }

  lemma NothingGathered(run: Run)
    ensures Gathered(run, [], NoProgress())
  {
  }

  lemma GatheredOneMore(run: Run, front: seq<Shard>, last: Shard, p: Progress, entries: seq<Entry>)
    requires run.index == IndexOf(entries) && Gathered(run, front, p) && Advance(run, p, last).Ok?
    ensures Gathered(run, front + [last], Advance(run, p, last).value)
  {
    hide SceneIndex.IndexOf, Decide, EvalOf, WarningsOf, IsEvaluated;
    var shards, q := front + [last], Advance(run, p, last).value;
    EvaluatedIff(run, last, entries);
    forall i | 0 <= i < |shards|
      ensures shards[i] == if i < |front| then front[i] else last
    {
    }
    forall id
      ensures id in q.evaluatedSceneIds <==> exists x :: LivesIn(run, q.results, x, id)
    {
      OneMoreScene(run, last, p, id, entries);
    }
    forall r
      ensures r in q.skipped <==> exists i :: 0 <= i < |shards| && Decide(run, shards[i]) == Skip(r)
    {
      if i :| 0 <= i < |front| && Decide(run, front[i]) == Skip(r) {
        assert Decide(run, shards[i]) == Skip(r);
      }
      assert shards[|front|] == last;
    }
    forall w
      ensures w in q.warnings <==> exists i :: 0 <= i < |shards| && w in WarningsOf(run, shards[i])
    {
      if i :| 0 <= i < |front| && w in WarningsOf(run, front[i]) {
        assert w in WarningsOf(run, shards[i]);
      }
      assert shards[|front|] == last;
    }
  }

  lemma OneMoreScene(run: Run, last: Shard, p: Progress, id: string, entries: seq<Entry>)
    requires run.index == IndexOf(entries) && Advance(run, p, last).Ok?
    requires id in p.evaluatedSceneIds <==> exists x :: LivesIn(run, p.results, x, id)
    ensures
      var q := Advance(run, p, last).value;
      id in q.evaluatedSceneIds <==> exists x :: LivesIn(run, q.results, x, id)
  {
    hide SceneIndex.IndexOf, Decide, EvalOf, WarningsOf;
    EvaluatedIff(run, last, entries);
    IndexedUnderOwnId(entries);
    var q := Advance(run, p, last).value;
    if x :| LivesIn(run, p.results, x, id) {
      assert LivesIn(run, q.results, x, id);
    }
    var decision := Decide(run, last);
    if decision.Evaluate? {
      var own := decision.payload.sampleId;
      assert LivesIn(run, q.results, own, decision.scene.sceneId);
      if x :| LivesIn(run, q.results, x, id) {
        assert x == own || LivesIn(run, p.results, x, id);
      }
    }
  }

  // ---- what a manifest lists ----

  /** A finished run lists a scene as evaluated exactly when a sample that lives in it has
      a written result. */
  lemma EvaluatedScenesIff(run: Run, shards: seq<Shard>, entries: seq<Entry>)
    requires run.index == IndexOf(entries)
    requires Conclude(run, shards).Ok? && Conclude(run, shards).value.FinishedRun?
    ensures
      var r := Conclude(run, shards).value;
      forall id :: id in r.evaluatedSceneIds <==> exists x :: LivesIn(run, r.results, x, id)
  {
    hide SceneIndex.IndexOf, RunShards, SummaryOf, SkipsOf, Names.Ascending, Accumulation.TotalsOf,
      Accumulation.Finalized, Accumulation.MetricsOf, LivesIn;
    LoopGathers(run, shards, entries);
    AscendingAscends(RunShards(run, shards).value.evaluatedSceneIds);
  }

  predicate IsSkipped(run: Run, shard: Shard) {
    (LacksGroundTruth(run, shard) && !run.missingGroundTruthFails) || HasNoScene(run, shard)
  }

  ghost function SkipsIn(e: Evaluation): SkipSummary
    requires !e.SkippedDataset?
  {
    e.skips
  }

  lemma ShownIsPart<T>(s: seq<T>)
    ensures forall x | x in FirstHundred(s) :: x in s
    ensures |FirstHundred(s)| < 100 ==> FirstHundred(s) == s
  {
  }

  /** A manifest lists a scene as skipped exactly when a shard was skipped under its id,
      the empty one left out; and what it shows of the skipped shards and of the warnings
      are theirs, and all of them unless it shows a hundred. */
  lemma SkipsIff(run: Run, shards: seq<Shard>, entries: seq<Entry>)
    requires run.index == IndexOf(entries)
    requires Conclude(run, shards).Ok? && !Conclude(run, shards).value.SkippedDataset?
    ensures
      var skips := SkipsIn(Conclude(run, shards).value);
      && (forall id :: id in skips.sceneIds <==>
            id != "" && exists i :: 0 <= i < |shards| && IsSkipped(run, shards[i])
                                    && ReportedScene(run, shards[i]) == Some(id))
      && (forall r | r in skips.shown ::
            exists i :: 0 <= i < |shards| && IsSkipped(run, shards[i]) && SkipRecord(run, shards[i]) == r)
      && (|skips.shown| < 100 ==>
            forall i | 0 <= i < |shards| && IsSkipped(run, shards[i]) :: SkipRecord(run, shards[i]) in skips.shown)
      && (forall w | w in skips.warnings :: exists i :: 0 <= i < |shards| && Warns(run, shards[i], w))
      && (|skips.warnings| < 100 ==>
            forall i, w | 0 <= i < |shards| && Warns(run, shards[i], w) :: w in skips.warnings)
  {
    hide SceneIndex.IndexOf, RunShards, SummaryOf, Names.Ascending, Accumulation.TotalsOf,
      Accumulation.Finalized, Accumulation.MetricsOf, FirstHundred, Decide, WarningsOf, Warns, LacksGroundTruth,
      HasNoScene,
      ReportedSample, LivesIn;
    var p := RunShards(run, shards).value;
    LoopGathers(run, shards, entries);
    AscendingAscends(SkippedSceneIds(p.skipped));
    ShownIsPart(p.skipped);
    ShownIsPart(p.warnings);
    assert SkipsIn(Conclude(run, shards).value) == SkipsOf(p);
    forall i | 0 <= i < |shards|
      ensures Decide(run, shards[i]).Skip? <==> IsSkipped(run, shards[i])
      ensures Decide(run, shards[i]).Skip? ==> Decide(run, shards[i]) == Skip(SkipRecord(run, shards[i]))
      ensures forall w :: w in WarningsOf(run, shards[i]) <==> Warns(run, shards[i], w)
    {
      SkippedIff(run, shards[i], entries);
      WarningsAre(run, shards[i], entries);
    }
    forall id
      ensures id in SkippedSceneIds(p.skipped) <==>
        id != "" && exists i :: 0 <= i < |shards| && IsSkipped(run, shards[i])
                                && ReportedScene(run, shards[i]) == Some(id)
    {
      if i :| 0 <= i < |shards| && IsSkipped(run, shards[i]) && ReportedScene(run, shards[i]) == Some(id) {
        assert Decide(run, shards[i]) == Skip(SkipRecord(run, shards[i]));
      }
    }
    forall r | r in p.skipped
      ensures exists i :: 0 <= i < |shards| && IsSkipped(run, shards[i]) && SkipRecord(run, shards[i]) == r
    {
      var i :| 0 <= i < |shards| && Decide(run, shards[i]) == Skip(r);
    }
    forall w | w in p.warnings
      ensures exists i :: 0 <= i < |shards| && Warns(run, shards[i], w)
    {
      var i :| 0 <= i < |shards| && w in WarningsOf(run, shards[i]);
      assert Warns(run, shards[i], w);
    }
  }

  // ---- the written results ----

  predicate EvaluatesSample(run: Run, shards: seq<Shard>, i: int, sampleId: string) {
    && 0 <= i < |shards| && IsEvaluated(run, shards[i])
    && shards[i].uri in run.payloads && run.payloads[shards[i].uri].sampleId == sampleId
  }

  ghost predicate EvaluatesLast(run: Run, shards: seq<Shard>, i: int, sampleId: string) {
    EvaluatesSample(run, shards, i, sampleId)
    && forall j | i < j < |shards| :: !EvaluatesSample(run, shards, j, sampleId)
  }

  /** The report of a sample's indexed annotations and a shard's predictions. */
  function ReportFor(run: Run, shard: Shard, sampleId: string): SampleEval
    requires shard.uri in run.payloads && sampleId in run.index.samplesById
  {
    Report(SampleMatcher(run.index.samplesById[sampleId].annotations, run.dist, run.limit),
           run.payloads[shard.uri].predictions)
  }

  ghost predicate ResultsTell(run: Run, shards: seq<Shard>, results: map<string, SampleEval>) {
    && (forall x :: x in results <==> exists i :: EvaluatesSample(run, shards, i, x))
    && (forall i, x | EvaluatesLast(run, shards, i, x) ::
          x in run.index.samplesById && x in results && results[x] == ReportFor(run, shards[i], x))
  }

  lemma {:induction false} LoopWritesResults(run: Run, shards: seq<Shard>, entries: seq<Entry>)
    requires run.index == IndexOf(entries) && RunShards(run, shards).Ok?
    ensures ResultsTell(run, shards, RunShards(run, shards).value.results)
  {
    hide SceneIndex.IndexOf, Decide, EvalOf, WarningsOf, IsEvaluated, ReportFor, ResultsTell;
    if shards == [] {
      NoResults(run);
    } else {
      var front, last := shards[..|shards| - 1], shards[|shards| - 1];
      LoopWritesResults(run, front, entries);
      assert shards == front + [last];
      OneMoreResult(run, front, last, RunShards(run, front).value, entries);
    }
  }

  lemma NoResults(run: Run)
    ensures ResultsTell(run, [], map[])
  {
  }

  lemma OneMoreResult(run: Run, front: seq<Shard>, last: Shard, p: Progress, entries: seq<Entry>)
    requires run.index == IndexOf(entries) && ResultsTell(run, front, p.results) && Advance(run, p, last).Ok?
    ensures ResultsTell(run, front + [last], Advance(run, p, last).value.results)
  {
    hide SceneIndex.IndexOf, Decide, EvalOf, WarningsOf, IsEvaluated, ReportFor;
    var shards, results := front + [last], Advance(run, p, last).value.results;
    EvaluatedIff(run, last, entries);
    EvaluatedHasPayload(run, last);
    EvalIsFor(run, last, entries);
    assert forall i | 0 <= i < |front| :: shards[i] == front[i];
    assert shards[|front|] == last;
    forall i, x
      ensures i < |front| ==> (EvaluatesSample(run, shards, i, x) <==> EvaluatesSample(run, front, i, x))
    {
    }
    forall x
      ensures x in results <==> exists i :: EvaluatesSample(run, shards, i, x)
    {
      if i :| EvaluatesSample(run, front, i, x) {
        assert EvaluatesSample(run, shards, i, x);
      }
      if x in results && x !in p.results {
        assert EvaluatesSample(run, shards, |front|, x);
      }
    }
    forall i, x | EvaluatesLast(run, shards, i, x)
      ensures x in run.index.samplesById && x in results && results[x] == ReportFor(run, shards[i], x)
    {
      if i < |front| {
        assert forall j | i < j < |front| :: !EvaluatesSample(run, shards, j, x);
        assert EvaluatesLast(run, front, i, x) && !EvaluatesSample(run, shards, |front|, x);
      }
    }
  }

  lemma EvaluatedHasPayload(run: Run, shard: Shard)
    ensures IsEvaluated(run, shard) ==> shard.uri in run.payloads
  {
  }

  lemma EvalIsFor(run: Run, shard: Shard, entries: seq<Entry>)
    requires run.index == IndexOf(entries)
    ensures Decide(run, shard).Evaluate? ==>
      var decision := Decide(run, shard);
      && shard.uri in run.payloads && decision.payload.sampleId in run.index.samplesById
      && EvalOf(run, decision.sample, decision.payload) == ReportFor(run, shard, decision.payload.sampleId)
  {
    hide SceneIndex.IndexOf, Report;
    EvaluatedIff(run, shard, entries);
  }

  /** A finished run writes a result for exactly the samples it evaluated, and each is the
      report of that sample against the predictions of the last shard evaluated for it. */
  lemma ResultsAreReports(run: Run, shards: seq<Shard>, entries: seq<Entry>)
    requires run.index == IndexOf(entries)
    requires Conclude(run, shards).Ok? && Conclude(run, shards).value.FinishedRun?
    ensures ResultsTell(run, shards, Conclude(run, shards).value.results)
  {
    hide SceneIndex.IndexOf, RunShards, SummaryOf, SkipsOf, Names.Ascending, Accumulation.TotalsOf,
      Accumulation.Finalized, Accumulation.MetricsOf, ResultsTell;
    LoopWritesResults(run, shards, entries);
  }
}
