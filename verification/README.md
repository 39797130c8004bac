# SceneOps evaluation and orchestration, modelled in Dafny

This project models two parts of SceneOps and proves what they keep.

**Detection evaluation.** `evaluate_sample` is an online greedy matcher: predictions come in list order, and each takes
the nearest free ground truth of its own category if that lies within the match distance (ties go to the lowest index).
Its reports flow through class metrics, a mutable accumulator and a loop over prediction shards. Scene selection filters
the same dataset earlier and has to agree with the evaluator's index.

- `GreedyMatching` is the matcher and its theorems (one-to-one, maximal, half of the optimum, monotone in the distance
  and in the predictions); `CategoryIndependence` splits a run by category.
- `SampleEvaluation`, `ClassStats` and `Accumulation` are the reports, the class tables and the accumulator;
  `Numerics` is rounding to six decimals, half to even, over exact reals.
- `SceneIndex`, `SceneSelection` and `ShardEvaluation` are the index, the selection loop and the shard loop;
  `ShardFates` says what becomes of each shard, `EvaluationManifest` what the written manifest and results add up to, and
  `Names` sorts the names they list.

**Jobs and pipelines.** A job is claimed with one conditional update, run, and its result recorded; a pipeline runs its
tasks in order, each with a job, and a quality gate may stop it. All of it goes through a store with commit and rollback.

- `JobRecords` holds job rows and their transitions in place. `JobProtocol` is a state machine in which any number of
  workers and API dispatches interleave, and every store operation may be lost before it takes effect or after it is
  committed. `JobRunner` is one worker over a store with commit and rollback; a ghost trace shows that its run is a run of
  that state machine.
- `TaskResults` and `RunResults` are output normalization, the gate, the merge into a run's result and the merge of
  upstream results; `Ordering` is the stable sort and the overlay of maps that they and the pipeline share, and `Json`
  the free-form values and dot paths.
- `PipelineRun` says which snapshots a run commits. `PipelineRunner` is the runner in place, proved to commit exactly
  these. `PipelineSafety` (every commit of every history), `PipelineOutcome` (how every run ends) and
  `PipelineProvenance` (what stored results mean) are the theorems. `PipelineRegistry` validates definitions.
- `ArtifactUris` joins URIs and names the per-sample results.

**How time and failure are modelled.** What the environment decides is an input: whether a store operation is lost, what
a handler returns, whether inputs resolve and a job can be planned. The theorems hold for all of these. Queuing a job
again is one atomic step, although the API reads the row and then writes it whole; split in two, it keeps ownership exclusive
exactly when nobody owns the job at the write (`LateQueuingIff`). A pipeline run has one runner at a time. Pipeline store
operations succeed; a job's own may not.

**Where the code does something its surroundings do not suggest.**

- A job is left RUNNING with nobody to finish it exactly when the reply to a committed claim or the lock event is lost, or
  the failure of a job that has not succeeded cannot be saved (`AbandonsIff`); then nothing ever changes it
  (`AbandonedForever`). `FinalStatusIff` gives the final status of a run for every environment.
- A committed SUCCEEDED job can still turn FAILED exactly while a worker owns it, that is until its closing events are
  appended (`SuccessIsFinalIff`, `UnownedSuccessIsFinal`).
- The gate runs after SUCCEEDED is committed. A commit shows a success that its gate refuses exactly when the next commit
  blocks that task (`RefusedSuccessIsBlockedNext`), so "SUCCEEDED means the gate passed" holds between task runs only.
- Every published value comes from a succeeded task exactly when the task that stopped the run holds no refs: a blocked one
  publishes its refused result, a failed one the result of an earlier attempt (`OnlySuccessesPublishIff`,
  `GuardedRunIsBlockedIff`).
- Selection and evaluation agree exactly when `min_annotation_count` is not negative (`SelectionAgreesWithEvaluation`). A
  chosen scene is always found with its ground truth exactly when, for every scene id, the last scene of that id has ground
  truth if any of them does (`ChosenAlwaysFoundIff`).
- `max_scenes` of zero or less still selects one scene (`LimitIsRespected`).
- Validation accepts definitions with a dependency cycle (`CyclesPassValidation`); the tasks that ever get a job have none
  (`JobsHaveNoCycle`).
- Two shards with the same sample are both counted in the metrics, but only the later result is kept: the metrics are sure to
  be those of the written results when the evaluated samples are distinct (`OneResultPerSampleIff`,
  `MetricsOfWrittenResults`).
- Within a run two samples share a result URI exactly when their ids differ in leading slashes only (`SampleUrisOfOneRun`).
  Across runs `SampleUrisCollideIff` says exactly when they do: a run id that holds "/samples/" can collide
  (`SlashedRunIdsCollide`), run ids without slashes cannot, but for an empty one and the run called "samples"
  (`SampleUrisAcrossRuns`).

## Model

| member | source | states |
|---|---|---|
| GreedyMatching.Matcher.Nearest | apps/worker/sceneops_worker/evaluation/detection/utils.py:39-53 | the scan over ground truths finds a free one of the category with the smallest distance, the lowest index among equals, and none only if none is free |
| GreedyMatching.Matcher.GreedyIsMatching | apps/worker/sceneops_worker/evaluation/detection/utils.py:34-71 | the result pairs predictions and ground truths one to one, of equal category and within the distance, and the two index sets are exactly those paired |
| GreedyMatching.Matcher.GreedyIsMaximal | apps/worker/sceneops_worker/evaluation/detection/utils.py:38-71 | no compatible pair is left with both sides unmatched |
| GreedyMatching.Matcher.HalfOfOptimum | apps/worker/sceneops_worker/evaluation/detection/utils.py:34-71 | every valid matching is at most twice as large as the greedy one |
| GreedyMatching.HalfIsTight | apps/worker/sceneops_worker/evaluation/detection/utils.py:38-71 | the factor two is reached whenever the first of two predictions takes the only ground truth the second could have had |
| GreedyMatching.DistanceMonotone | apps/worker/sceneops_worker/evaluation/detection/utils.py:38-71 | the ground truths matched at a distance stay matched at any larger one |
| GreedyMatching.InsertedPrediction | apps/worker/sceneops_worker/evaluation/detection/utils.py:38-71 | one prediction inserted anywhere unmatches no ground truth and matches at most one more |
| CategoryIndependence.RecordsDescribeMatches | apps/worker/sceneops_worker/evaluation/detection/utils.py:55-67 | the match records are those of the matcher's pairs, in order, with the rounded distance |
| CategoryIndependence.CategoriesDoNotInterfere | apps/worker/sceneops_worker/evaluation/detection/utils.py:42-59 | a run on one category's predictions and ground truths alone matches exactly the pairs, by position, that the whole run matches in that category, and gives the same records |
| CategoryIndependence.MatchesStayInCategory | apps/worker/sceneops_worker/evaluation/detection/utils.py:46-47 | every matched pair lies among the positions of one category, so the whole run is the union of its per-category runs |
| GreedyMatching.Matcher.MatchesAreClaims | apps/worker/sceneops_worker/evaluation/detection/utils.py:38-67 | a pair is among the matches exactly when the prediction, at its turn, takes that ground truth |
| SampleEvaluation.FindNearest | apps/worker/sceneops_worker/evaluation/detection/utils.py:39-55 | the inner loop computes the matcher's choice |
| SampleEvaluation.MatchPredictions | apps/worker/sceneops_worker/evaluation/detection/utils.py:34-67 | the outer loop with its two sets and its list computes the greedy outcome and its records |
| SampleEvaluation.BuildSampleClassMetrics | apps/worker/sceneops_worker/evaluation/detection/utils.py:127-152 | the three counting passes compute the class table of hits, false positives and misses |
| SampleEvaluation.EvaluateSample | apps/worker/sceneops_worker/evaluation/detection/utils.py:21-103 | the whole evaluation, from filters to rounded ratios, computes the report of the matcher |
| SampleEvaluation.ReportedShares | apps/worker/sceneops_worker/evaluation/detection/utils.py:96-97 | the precision and recall of every sample report are the shares of its hits among its evaluable predictions and its ground truths, exactly so at both ends and to half a millionth in between |
| SampleEvaluation.MeanErrorIsMean | apps/worker/sceneops_worker/evaluation/detection/utils.py:92-95 | the reported mean is the mean of the reported distances, to half a millionth, and 0 without matches |
| SampleEvaluation.ErrorSumAdds | apps/worker/sceneops_worker/evaluation/detection/utils.py:72-72 | the total error is additive over the matches, each counting its own distance |
| SampleEvaluation.FailedLiftsAreCounted | apps/worker/sceneops_worker/evaluation/detection/utils.py:12-32 | exactly the predictions whose lifting status is "failed" are left out and counted as failed lifts |
| SampleEvaluation.SupportedIff | apps/worker/sceneops_worker/evaluation/detection/utils.py:109-120 | an annotation counts if and only if its category continues one of three names |
| SampleEvaluation.Supported | apps/worker/sceneops_worker/evaluation/detection/utils.py:106-120 | an annotation is kept exactly when it is among the annotations and has a supported prefix |
| SampleEvaluation.SupportedConcat | apps/worker/sceneops_worker/evaluation/detection/utils.py:115-120 | filtering goes piece by piece, so it keeps order and repetition |
| SampleEvaluation.LabelsBalance | apps/worker/sceneops_worker/evaluation/detection/utils.py:127-152 | per category, hits and false positives are the predictions, hits and misses the ground truths |
| SampleEvaluation.ClassAccounting | apps/worker/sceneops_worker/evaluation/detection/utils.py:127-152 | a report has exactly the categories that occur in the sample, and by position a category's tp are its matches, its tp+fp its evaluable predictions, its tp+fn its supported ground truths |
| SampleEvaluation.ClassSums | apps/worker/sceneops_worker/evaluation/detection/utils.py:69-80 | the class counts of a report sum to its tp, fp and fn |
| SampleEvaluation.PredictionsConserved | apps/worker/sceneops_worker/evaluation/detection/utils.py:31-102 | tp, fp and failed lifts add up to all predictions, tp and fn to all supported ground truths, and the reported matches are the matcher's pairs in order |
| SampleEvaluation.TotalErrorBound | apps/worker/sceneops_worker/evaluation/detection/utils.py:65-91 | rounding the total loses nothing, and it is at most the rounded match distance per match |
| SampleEvaluation.MeanErrorBound | apps/worker/sceneops_worker/evaluation/detection/utils.py:92-95 | the reported mean is at most the rounded match distance |
| SampleEvaluation.RaisedDistance | apps/worker/sceneops_worker/evaluation/detection/utils.py:55-97 | raising the match distance never lowers tp or recall and never raises fp or fn |
| SampleEvaluation.ExtraPrediction | apps/worker/sceneops_worker/evaluation/detection/utils.py:31-97 | one more prediction never lowers tp or recall and raises tp and fp by at most one |
| SampleEvaluation.ExtraFailedLift | apps/worker/sceneops_worker/evaluation/detection/utils.py:12-32 | one more failed lift changes only the two counts of predictions |
| ClassStats.MergeClassStats | apps/worker/sceneops_worker/evaluation/detection/utils.py:155-165 | the merge adds the counts of every category, those new to the total starting at zero |
| ClassStats.MergedCounts | apps/worker/sceneops_worker/evaluation/detection/utils.py:155-165 | a merged table has the classes of both, with each of their three counters added |
| ClassStats.SumOfMerge | apps/worker/sceneops_worker/evaluation/detection/utils.py:155-165 | the sums over all classes add up when tables are merged |
| ClassStats.MergedSwap | apps/worker/sceneops_worker/evaluation/detection/utils.py:155-165 | two tables can be merged into a total in either order |
| Accumulation.EvaluationAccumulator.Add | apps/worker/sceneops_worker/evaluation/detection/accumulation.py:28-43 | the fields become the old totals with the report added |
| Accumulation.TotalsAdd | apps/worker/sceneops_worker/evaluation/detection/accumulation.py:28-43 | the totals of two lists of reports are added field by field and class by class |
| Accumulation.RunMeanIsMean | apps/worker/sceneops_worker/evaluation/detection/accumulation.py:56-66 | the mean error of a run is the mean over all matches of all reports, to half a millionth |
| Accumulation.MetricsAreShares | apps/worker/sceneops_worker/evaluation/detection/accumulation.py:53-69 | the reported precision and recall lie between 0 and 1, exactly so at both ends, within half a millionth of the true shares |
| Accumulation.EvaluationAccumulator.BuildClassMetrics | apps/worker/sceneops_worker/evaluation/detection/accumulation.py:71-72 | every class gets its counts, precision and recall |
| Accumulation.FinalizeClassMetrics | apps/worker/sceneops_worker/evaluation/detection/utils.py:168-186 | the loop reports exactly the classes of the table, in the order of their names, each with its counts, rounded precision and recall |
| Accumulation.ClassReportsAreShares | apps/worker/sceneops_worker/evaluation/detection/utils.py:173-184 | every class is reported with its own counts, its precision and recall being its shares to half a millionth |
| Names.AscendingAscends | apps/worker/sceneops_worker/evaluation/detection/center_distance.py:194-224 | a sorted list of names holds the given names, each once, every one before all that follow it |
| SampleEvaluation.RatioIsShare | apps/worker/sceneops_worker/evaluation/detection/utils.py:182-193 | a rounded ratio of counts lies between 0 and 1, is 0 for no hits and 1 for nothing but hits, and is within half a millionth of the true one |
| Accumulation.OrderDoesNotMatter | apps/worker/sceneops_worker/evaluation/detection/accumulation.py:28-43 | permuted reports give the same totals and the same class table |
| Accumulation.ReportsAreExact | apps/worker/sceneops_worker/evaluation/detection/utils.py:69-80 | every report of a sample meets the premise of the class-sum theorem |
| Accumulation.ClassSumsAreTotals | apps/worker/sceneops_worker/evaluation/detection/accumulation.py:28-51 | after any number of additions the class counts sum to the run's tp, fp and fn |
| Accumulation.ReportsStayWithinReach | apps/worker/sceneops_worker/evaluation/detection/utils.py:65-91 | every report of a sample meets the premise of the error bound |
| Accumulation.RunErrorBound | apps/worker/sceneops_worker/evaluation/detection/accumulation.py:33-66 | the accumulated error is at most the rounded match distance per match, and so is the reported mean |
| Accumulation.PooledPrecision | apps/worker/sceneops_worker/evaluation/detection/accumulation.py:53-72 | the reported precision lies between the reported precisions of two classes that have predictions |
| Numerics.RoundMonotone | apps/worker/sceneops_worker/evaluation/detection/utils.py:91-97 | rounding to six decimals, half to even, keeps order |
| Numerics.RoundToNearest | apps/worker/sceneops_worker/evaluation/detection/utils.py:91-97 | a number is rounded to the nearest number of millionths |
| Numerics.RoundTie | apps/worker/sceneops_worker/evaluation/detection/utils.py:91-97 | and from half-way to the even one |
| Numerics.RoundIdempotent | apps/worker/sceneops_worker/evaluation/detection/utils.py:65-91 | rounding a rounded number changes nothing |
| SceneIndex.BuildSceneIndex | apps/worker/sceneops_worker/evaluation/detection/loading.py:65-132 | the loop computes the index of the scenes that could be loaded, with its maps and all its totals |
| SceneIndex.EntriesDescribe | apps/worker/sceneops_worker/evaluation/detection/loading.py:81-106 | every entry is of a listed scene with a stored manifest and states what that manifest states, its lists counted where a count is missing |
| SceneIndex.EntriesConcat | apps/worker/sceneops_worker/evaluation/detection/loading.py:81-86 | scenes are loaded one by one in the order they are listed, each that is stored exactly once |
| SceneIndex.TotalsAreSums | apps/worker/sceneops_worker/evaluation/detection/loading.py:111-132 | the totals are the sums over the loaded scenes, and each scene with ground truth is counted once |
| SceneIndex.TotalsTell | apps/worker/sceneops_worker/evaluation/detection/loading.py:88-116 | if no recorded count is negative no total is; the scenes counted as ground truth are the flagged and the annotated ones, and the annotation total is zero if and only if none is annotated |
| SceneIndex.IndexLockstep | apps/worker/sceneops_worker/evaluation/detection/loading.py:81-120 | the maps built side by side know the same samples, and every indexed scene is a loaded one that holds what it is indexed for |
| SceneIndex.SceneIsFound | apps/worker/sceneops_worker/evaluation/detection/loading.py:109-109 | with unique scene ids, looking up a loaded scene's id finds it |
| SceneIndex.LastIsFound | apps/worker/sceneops_worker/evaluation/detection/loading.py:109-109 | whatever the ids, looking up an id finds the last loaded scene that has it |
| SceneIndex.SampleIsFound | apps/worker/sceneops_worker/evaluation/detection/loading.py:118-120 | with unique sample ids, looking up a sample finds it and its own scene |
| SceneIndex.AnnotatedSceneCounts | apps/worker/sceneops_worker/evaluation/detection/loading.py:88-113 | with counts that are not negative, the total is at least any scene's count |
| SceneSelection.SelectDetectionScenes | apps/worker/sceneops_worker/scenes/selection.py:12-118 | the loop takes the first eligible scenes in dataset order up to the limit, and its counters and lists, the sorted request, the first hundred skips and the repeated settings account for exactly the scenes visited |
| SceneSelection.EveryVerdictHolds | apps/worker/sceneops_worker/scenes/selection.py:33-89 | every selected scene was eligible and every skipped one has the reason recorded for it, told from the request, the store and the manifest alone; no scene has two verdicts |
| SceneSelection.InspectedAreFound | apps/worker/sceneops_worker/scenes/selection.py:44-54 | the scenes counted as inspected are exactly those requested and found |
| SceneSelection.StricterSelectsFewer | apps/worker/sceneops_worker/scenes/selection.py:60-89 | a stricter configuration makes no scene eligible that a looser one rejects |
| SceneSelection.LimitIsRespected | apps/worker/sceneops_worker/scenes/selection.py:91-97 | the selection stays within max_scenes if and only if that is positive or nothing is eligible |
| SceneSelection.ChosenBearsGroundTruth | apps/worker/sceneops_worker/scenes/selection.py:56-93 | with unique ids, a scene chosen in ground-truth mode bears ground truth in the evaluator's index |
| SceneSelection.DuplicateIdHidesGroundTruth | apps/worker/sceneops_worker/evaluation/detection/loading.py:108-109 | a dataset of two scenes in which a chosen scene is hidden by one without ground truth |
| SceneSelection.ChosenAlwaysFoundIff | apps/worker/sceneops_worker/evaluation/detection/loading.py:81-120 | under every ground-truth configuration every chosen scene is found with ground truth, if and only if for every id the last scene has it when any has |
| SceneSelection.NegativeMinimumSlips | apps/worker/sceneops_worker/scenes/selection.py:60-63 | a negative minimum admits a dataset that the evaluator skips as a whole |
| SceneSelection.SelectionAgreesWithEvaluation | apps/worker/sceneops_worker/evaluation/detection/center_distance.py:61-66 | no dataset with a non-empty ground-truth selection is skipped as a whole, if and only if the minimum is not negative |
| ShardEvaluation.VisitShard | apps/worker/sceneops_worker/evaluation/detection/center_distance.py:78-181 | the branches for one shard decide between evaluating, skipping with its record, and failing, and collect the warnings |
| ShardFates.EvaluatedIff | apps/worker/sceneops_worker/evaluation/detection/center_distance.py:78-181 | a shard is evaluated, against its own sample and payload, if and only if its sample lives in an indexed scene and neither that scene nor the one it names lacks ground truth |
| ShardFates.SkippedIff | apps/worker/sceneops_worker/evaluation/detection/center_distance.py:80-175 | a shard is skipped if and only if its scene lacks ground truth and the policy allows it or its sample has no scene; the record says under which scene and sample and why |
| ShardFates.FailsIff | apps/worker/sceneops_worker/evaluation/detection/center_distance.py:80-181 | and it fails the run if and only if ground truth is missing under the fail policy, its payload cannot be read, or its sample is not indexed |
| ShardFates.BareSamplesAreNotEvaluated | apps/worker/sceneops_worker/evaluation/detection/center_distance.py:114-175 | with unique scene ids, a shard whose sample lives in a scene without ground truth is never evaluated, whatever it names |
| ShardEvaluation.EvaluateDetection | apps/worker/sceneops_worker/evaluation/detection/center_distance.py:51-226 | the evaluator with its counters, lists and accumulator computes the specified evaluation: index summary, metrics, class metrics, skip summary, sorted scene ids and the written sample results, or the failure |
| ShardEvaluation.FinishedRunAddsUp | apps/worker/sceneops_worker/evaluation/detection/center_distance.py:210-226 | in a finished run the class counts sum to the reported tp, fp and fn, precision and recall lie between 0 and 1, and the mean error is at most the rounded match distance |
| ShardEvaluation.FinishedRunIsPooled | apps/worker/sceneops_worker/evaluation/detection/center_distance.py:210-226 | and the reported precision lies between the reported ones of two classes that have predictions |
| EvaluationManifest.NothingIsLost | apps/worker/sceneops_worker/evaluation/detection/center_distance.py:77-226 | however an evaluation ends its counts account for every shard, and, if shard counts match their payloads, tp, fp, failed lifts and skipped predictions add up to the announced ones |
| EvaluationManifest.ManifestSummaryAddsUp | apps/worker/sceneops_worker/evaluation/detection/center_distance.py:342-363 | however an evaluation ends, its manifest shows the loaded scenes with the counts of their entries, and the totals beside them are their sums |
| EvaluationManifest.FinishedMeanIsMean | apps/worker/sceneops_worker/evaluation/detection/center_distance.py:210-226 | the mean error of a finished run is the mean distance of all matches it evaluated, to half a millionth |
| EvaluationManifest.DatasetIsSkippedIff | apps/worker/sceneops_worker/evaluation/detection/center_distance.py:61-66 | the dataset is skipped as a whole if and only if the policy is not to fail and no loaded scene is annotated |
| EvaluationManifest.FailPolicyFinishes | apps/worker/sceneops_worker/evaluation/detection/center_distance.py:80-226 | under the fail policy an evaluation that does not fail is a finished one, and what it skipped belongs to no indexed scene |
| ShardEvaluation.CompletesIffNoShardFails | apps/worker/sceneops_worker/evaluation/detection/center_distance.py:77-192 | the loop completes if and only if no shard fails on its own |
| EvaluationManifest.SceneListsAreDisjoint | apps/worker/sceneops_worker/evaluation/detection/center_distance.py:183-224 | with unique scene ids the two sorted scene lists of a manifest share no scene, and the evaluated ones bear ground truth |
| ShardFates.EvaluatedScenesIff | apps/worker/sceneops_worker/evaluation/detection/center_distance.py:185-224 | a scene is listed as evaluated if and only if a sample that lives in it has a written result |
| ShardFates.SkipsIff | apps/worker/sceneops_worker/evaluation/detection/center_distance.py:86-221 | a scene is listed as skipped if and only if a shard was skipped under its id; the skip records and warnings shown are those of the shards, and all of them unless a hundred are shown |
| ShardFates.ResultsAreReports | apps/worker/sceneops_worker/evaluation/detection/center_distance.py:177-192 | a result is written for exactly the samples evaluated, and each is the report of that sample against the predictions of the last shard evaluated for it |
| EvaluationManifest.OneResultPerSampleIff | apps/worker/sceneops_worker/evaluation/detection/center_distance.py:177-192 | there are as many written results as evaluated samples if and only if no two evaluated payloads are of one sample; otherwise fewer, and a sample keeps its last report |
| EvaluationManifest.MetricsOfWrittenResults | apps/worker/sceneops_worker/evaluation/detection/center_distance.py:177-226 | and then the reported metrics, class metrics and counts are those of the written results, added up in any order |
| ShardEvaluation.ShardOrderDoesNotMatter | apps/worker/sceneops_worker/evaluation/detection/center_distance.py:77-192 | permuted shards complete together and give the same totals, class table and counts |
| ShardEvaluation.ChosenSampleIsEvaluated | apps/worker/sceneops_worker/evaluation/detection/center_distance.py:78-181 | with unique ids, a shard for a sample of a chosen scene is evaluated against that very sample, whatever the policy, unless it names a scene without ground truth |
| JobRecords.JobResultRecorder.MarkJobRunning | apps/worker/sceneops_worker/jobs/result_recorder.py:19-36 | the job becomes running and its first pending step too |
| JobRecords.JobResultRecorder.MarkJobSucceeded | apps/worker/sceneops_worker/jobs/result_recorder.py:38-58 | the job succeeds with its result and its first running step ends |
| JobRecords.JobResultRecorder.MarkJobFailed | apps/worker/sceneops_worker/jobs/result_recorder.py:60-77 | the job fails with its error and every running step ends |
| JobRecords.JobResultRecorder.MarkFirstPendingStepRunning | apps/worker/sceneops_worker/jobs/result_recorder.py:79-86 | only the first pending step starts |
| JobRecords.FirstPendingStarts | apps/worker/sceneops_worker/jobs/result_recorder.py:79-86 | the first pending step runs, and every other step stays as it was |
| JobRecords.FirstRunningEnds | apps/worker/sceneops_worker/jobs/result_recorder.py:46-93 | the first running step is the one that is returned and ended, and every other step stays as it was |
| JobRecords.JobResultRecorder.GetRunningStep | apps/worker/sceneops_worker/jobs/result_recorder.py:88-93 | the first running step, if any |
| JobRecords.FirstIsAll | apps/worker/sceneops_worker/jobs/result_recorder.py:46-71 | with at most one running step, ending the first one is ending all, and leaves none |
| JobRecords.TransitionsStayOrderly | apps/worker/sceneops_worker/jobs/result_recorder.py:19-77 | every transition keeps at most one running step, and none unless the job runs |
| JobProtocol.RunsKeepInv | apps/worker/sceneops_worker/jobs/runner.py:42-200 | the protocol's invariant survives any sequence of actions of any number of workers and dispatches |
| JobProtocol.OwnershipIsExclusive | packages/sceneops-db/sceneops_db/postgres/jobs.py:90-119 | in every reachable state no two workers own a job, and two won claims of a job have a committed failure and then a queuing between them |
| JobProtocol.RowsStayOrderly | apps/worker/sceneops_worker/jobs/result_recorder.py:46-71 | in every reachable state a row has at most one running step, none unless the job runs, and ending the first is ending all |
| JobProtocol.ReturnMeansSucceeded | apps/worker/sceneops_worker/jobs/runner.py:161-177 | a run about to return without an error has left a succeeded row with the handler's result |
| JobProtocol.OwnedRowIsPrivate | packages/sceneops-db/sceneops_db/postgres/jobs.py:43-52 | while a job is owned, only its owner's saves change its row |
| JobProtocol.AbandonsIff | apps/worker/sceneops_worker/jobs/runner.py:42-90 | in every reachable state an action abandons a running job if and only if it is a committed claim whose reply is lost, a lost lock event, or a lost save of the failure of a job that is still running |
| JobProtocol.LostLockEventAbandons | apps/worker/sceneops_worker/jobs/runner.py:59-67 | such a state can be reached, for any job id |
| JobProtocol.AbandonedForever | apps/api/app/platform/jobs/service.py:117-139 | no sequence of actions changes the row of such a job |
| JobProtocol.SuccessIsFinalIff | apps/worker/sceneops_worker/jobs/runner.py:52-55 | in every reachable state a succeeded job can still become failed if and only if a worker owns it |
| JobProtocol.UnownedSuccessIsFinal | apps/api/app/platform/jobs/service.py:117-139 | no sequence of actions changes the row of a succeeded job that nobody owns |
| JobProtocol.SuccessCanBecomeFailure | apps/worker/sceneops_worker/jobs/runner.py:167-177 | how: a committed success becomes a failure that keeps the result when its events are lost |
| JobProtocol.LateQueuingIff | apps/api/app/platform/jobs/service.py:128-139 | queuing split into a read and a later whole-row write keeps ownership exclusive for ever if and only if nobody owns the job at the write, and an owner must have claimed it in between |
| JobProtocol.LateQueuingBreaksExclusion | apps/api/app/platform/jobs/service.py:128-139 | a write back right after a claim lets a second worker own the job |
| JobRunner.JobStore.ClaimForRun | packages/sceneops-db/sceneops_db/postgres/jobs.py:90-119 | the row is taken and returned if and only if it exists and its status is runnable |
| JobRunner.JobStore.Update | packages/sceneops-db/sceneops_db/postgres/jobs.py:43-52 | the whole row is replaced, and a missing row is an error |
| JobRunner.JobRunner.PrepareExecution | apps/worker/sceneops_worker/jobs/runner.py:59-90 | the row is the claimed one if and only if it was runnable and the claim took effect, and the worker holds it if and only if its reply and the lock event arrived too |
| JobRunner.JobRunner.Refusal | apps/worker/sceneops_worker/jobs/runner.py:79-108 | why a claim was refused, by the row's status |
| JobRunner.JobRunner.StartJob | apps/worker/sceneops_worker/jobs/runner.py:112-128 | unless the save is lost first the running row is committed, and the worker goes on or is left to fail the job |
| JobRunner.JobRunner.CompleteJob | apps/worker/sceneops_worker/jobs/runner.py:161-177 | unless the save is lost first the succeeded row is committed, and the worker is done or is left to fail the job |
| JobRunner.JobRunner.FailExecution | apps/worker/sceneops_worker/jobs/runner.py:179-200 | unless the save is lost first the failed row with its error is committed |
| JobRunner.JobRunner.Run | apps/worker/sceneops_worker/jobs/runner.py:42-55 | for every environment the row a run leaves is given exactly and no other row changes; it returns a succeeded row if and only if the job was runnable and nothing was lost; and it is a run of the protocol |
| JobRunner.FinalStatusIff | apps/worker/sceneops_worker/jobs/runner.py:42-55 | for each of SUCCEEDED, RUNNING and FAILED, exactly which losses leave a runnable job in it |
| JobRunner.RunTakesOneStep | apps/worker/sceneops_worker/jobs/runner.py:42-200 | a run changes the first pending step and no other, and for every environment the status that step is left with is given |
| JobRunner.FinalFields | apps/worker/sceneops_worker/jobs/result_recorder.py:19-77 | the result, the error and the worker that a run leaves in the row, by its final status |
| TaskResults.NormalizeTaskOutputs | apps/worker/sceneops_worker/pipelines/result_recorder.py:42-75 | the loop computes the four buckets, or names the first required output that is missing |
| TaskResults.NormalizedBuckets | apps/worker/sceneops_worker/pipelines/result_recorder.py:42-75 | each of the four buckets has the keys that a spec of its own kind puts there, with the value the last one puts, and the raw result is kept |
| TaskResults.RefusedIffLacking | apps/worker/sceneops_worker/pipelines/result_recorder.py:52-62 | outputs are refused if and only if a required one has neither value nor default, and the error names the first such |
| TaskResults.BucketHoldsLastFeed | apps/worker/sceneops_worker/pipelines/result_recorder.py:49-73 | a bucket holds under a key what the last spec feeding it resolves to, and nothing else |
| TaskResults.FirstFiring | apps/worker/sceneops_worker/pipelines/quality_gate.py:57-69 | a rule is found if and only if one fires, and it is one that does |
| TaskResults.FirstFiringIsFirst | apps/worker/sceneops_worker/pipelines/quality_gate.py:57-69 | the rule found is the first that fires |
| TaskResults.TrueBlocks | apps/worker/sceneops_worker/pipelines/quality_gate.py:72-73 | under a truth rule everything blocks but null, false, zero and the empty text, list and object |
| TaskResults.EqualBlocks | apps/worker/sceneops_worker/pipelines/quality_gate.py:74-75 | under an equality rule the expected value blocks, and text, null, numbers and booleans block for nothing else, but for the number a boolean stands for |
| TaskResults.MemberBlocks | apps/worker/sceneops_worker/pipelines/quality_gate.py:76-77 | a list rule blocks if and only if an equality rule with one of its items does |
| Json.SameThroughout | apps/worker/sceneops_worker/pipelines/quality_gate.py:74-77 | equality of values carries over from value to value |
| Json.SameKinds | apps/worker/sceneops_worker/pipelines/quality_gate.py:74-77 | and what it means for each kind of value |
| TaskResults.CheckTaskResult | apps/worker/sceneops_worker/pipelines/quality_gate.py:47-69 | the gate blocks if and only if there is a result and some rule fires on it, with the first such rule |
| TaskResults.GateReadsBucket | apps/worker/sceneops_worker/pipelines/quality_gate.py:28-37 | a source that names a bucket reads the rest of its path in that bucket |
| Json.ReadDotPath | apps/worker/sceneops_worker/pipelines/result_recorder.py:20-30 | the walk along the parts of the path, a null or a non-object on the way being a miss |
| Json.ReadUnder | apps/worker/sceneops_worker/pipelines/result_recorder.py:20-30 | a path with a dot goes on inside the object under its first part, and misses if there is none |
| Json.ReadKey | apps/worker/sceneops_worker/pipelines/result_recorder.py:20-30 | and one without is looked up as a key |
| RunResults.BuildPipelineResult | apps/worker/sceneops_worker/pipelines/result_builder.py:14-90 | the loop over the sorted rows computes the specified result |
| RunResults.OutputsIff | apps/worker/sceneops_worker/pipelines/result_builder.py:43-54 | a key is an output if and only if some row's refs hold it, not null, and its value is that of the row of greatest order, the last one on a tie |
| RunResults.MetricsIff | apps/worker/sceneops_worker/pipelines/result_builder.py:56-58 | a metric likewise, from the rows' metrics |
| RunResults.ArtifactsIff | apps/worker/sceneops_worker/pipelines/result_builder.py:60-62 | and an artifact, if it is a text that is not empty |
| RunResults.TasksTellRows | apps/worker/sceneops_worker/pipelines/result_builder.py:48-73 | the tasks listed are exactly those with a result or a job, each with its own result or a bare entry |
| RunResults.ResultForgetsListing | apps/worker/sceneops_worker/pipelines/result_builder.py:43-90 | the whole result is unchanged by permuting rows whose order tells them apart |
| RunResults.SummaryCountsRows | apps/worker/sceneops_worker/pipelines/result_builder.py:36-82 | the summary tells the run's status, the number of rows and how many succeeded, were skipped, blocked or failed, however they are listed |
| RunResults.ResolveUpstream | apps/worker/sceneops_worker/pipelines/input_resolver.py:166-241 | the loop computes the merged refs and summary and one entry per dependency |
| RunResults.LastDependencyWins | apps/worker/sceneops_worker/pipelines/input_resolver.py:190-239 | an input ref is there if and only if a succeeded upstream task holds it, with the value of the last one in the list, as its own entry has it |
| RunResults.LastSummaryWins | apps/worker/sceneops_worker/pipelines/input_resolver.py:190-239 | and so for the merged summary |
| RunResults.UpstreamTells | apps/worker/sceneops_worker/pipelines/input_resolver.py:196-230 | an upstream entry has its row's status and job, if there is a row, and its buckets only if the task succeeded |
| PipelineRegistry.PipelineDefinitionRegistry.Validate | packages/sceneops-core/sceneops_core/pipelines/registry.py:8-20 | a definition is accepted if and only if its ids are distinct and its dependencies exist |
| PipelineRegistry.PipelineDefinitionRegistry.Register | packages/sceneops-core/sceneops_core/pipelines/registry.py:40-46 | only new types with valid definitions are added, so every registered definition is valid |
| PipelineRunner.PipelineTaskRunner.MustSkip | apps/worker/sceneops_worker/pipelines/task_runner.py:210-245 | an optional task is skipped if and only if no candidate key carries parameters |
| PipelineRunner.PipelineTaskRunner.ValidateDependencies | apps/worker/sceneops_worker/pipelines/task_runner.py:249-274 | true if and only if every dependency is succeeded or skipped in the store |
| PipelineRunner.PipelineTaskRunner.ExecuteJob | apps/worker/sceneops_worker/pipelines/task_runner.py:332-340 | the attached job's own row is run in the job table, with the outcome and the row the job runner's contract gives |
| PipelineRunner.PipelineTaskRunner.CreateAndAttachJob | apps/worker/sceneops_worker/pipelines/task_runner.py:304-330 | a new pending job row and the task row that refers to it are committed |
| PipelineRunner.RecordedJobSucceeded | apps/worker/sceneops_worker/pipelines/result_recorder.py:105-129 | a task that records a success refers to a succeeded job with the very raw result it recorded |
| PipelineRunner.RecordedJobSteps | apps/worker/sceneops_worker/jobs/runner.py:110-177 | that job has the planned steps, the first one succeeded and the others pending |
| PipelineRunner.PipelineTaskRunner.RecordTaskResult | apps/worker/sceneops_worker/pipelines/result_recorder.py:105-129 | the success and its buckets are committed, or nothing is when an output is missing |
| PipelineRunner.PipelineTaskRunner.Attempt | apps/worker/sceneops_worker/pipelines/task_runner.py:70-82 | the steps commit the task's specified writes up to success or to the one that records the error |
| PipelineRunner.PipelineTaskRunner.Run | apps/worker/sceneops_worker/pipelines/task_runner.py:55-95 | a task run commits exactly the specified snapshots, reports the specified outcome, and adds to the job table exactly its own job's final row, if it came to have a job |
| PipelineRunner.PipelineRunner.RunTasks | apps/worker/sceneops_worker/pipelines/runner.py:39-50 | the loop commits exactly what the specified loop does and stops where it stops |
| PipelineRunner.PipelineRunner.Run | apps/worker/sceneops_worker/pipelines/runner.py:29-70 | a run commits exactly the specified snapshots, none when refused, and raises when refused or failed |
| PipelineRun.RefusedIff | apps/worker/sceneops_worker/pipelines/runner.py:85-104 | a run is refused if and only if it is succeeded, running, cancelled or blocked, and otherwise starts by clearing the error |
| PipelineRunner.PipelineService.CreatePipelineRun | apps/api/app/platform/pipelines/service.py:72-125 | one pending row per task, with its default parameters overridden by the run's; refused for unavailable definitions and for task parameters that are no object |
| PipelineOutcome.OverridesWin | apps/api/app/platform/pipelines/service.py:102-105 | a task's parameters are its defaults, each replaced where the run gives one under the task's id, and no others |
| PipelineOutcome.SkippedIffNoParams | apps/worker/sceneops_worker/pipelines/task_runner.py:210-245 | a task is to be skipped if and only if it is optional and the run gives no parameters under its id, name, job type or own keys |
| PipelineRunner.PipelineService.MarkQueued | apps/api/app/platform/pipelines/service.py:165-193 | queuing changes the run's status only, and is refused if and only if the run is running, succeeded or cancelled |
| PipelineRun.QueuingRefusedIff | apps/api/app/platform/pipelines/service.py:165-193 | queuing is refused if and only if the run is running, succeeded or cancelled, so a blocked one can be run again |
| PipelineSafety.TaskOutcomeShows | apps/worker/sceneops_worker/pipelines/task_runner.py:55-95 | a task run that goes on leaves its task settled; one that stops leaves BLOCKED or FAILED with the error |
| PipelineSafety.LoopShape | apps/worker/sceneops_worker/pipelines/runner.py:39-50 | from any state, the tasks passed are settled, the one that stopped the run shows why, all others are untouched |
| PipelineSafety.HistoryKeeps | apps/worker/sceneops_worker/pipelines/task_runner.py:172-196 | over any sequence of runs and queuings, every commit keeps the rows settled before and creates no job for them; if no task was running, every running task's dependencies are settled in every commit |
| PipelineSafety.RunningTasksAreReady | apps/worker/sceneops_worker/pipelines/task_runner.py:249-302 | in every commit of every history of a created run, a running task's dependencies are settled |
| PipelineOutcome.FreshTask | apps/worker/sceneops_worker/pipelines/task_runner.py:66-95 | a waiting task goes on, is blocked and gets a job exactly when the stated conditions on definition and environment hold, and stops for the first thing that went wrong |
| PipelineOutcome.FreshLoop | apps/worker/sceneops_worker/pipelines/runner.py:39-50 | the loop over fresh tasks passes exactly up to the first task that does not meet its condition, and its jobs are those of the tasks that get that far |
| PipelineOutcome.FreshRun | apps/worker/sceneops_worker/pipelines/runner.py:36-70 | statuses end as SUCCEEDED or SKIPPED, then at most one BLOCKED or FAILED, then untouched PENDING rows; the run's status and error say which; no task behind the stop has a job |
| PipelineOutcome.EveryHistoryHasTheShape | apps/worker/sceneops_worker/pipelines/runner.py:85-104 | the same shape holds after any sequence of runs and queuings of a created run |
| PipelineOutcome.HistoryReshapes | apps/worker/sceneops_worker/pipelines/task_runner.py:172-196 | and its settled part only grows |
| PipelineOutcome.SucceedsIffAllPass | apps/worker/sceneops_worker/pipelines/runner.py:39-59 | a fresh run succeeds if and only if every task is to be skipped, or follows its dependencies, works and passes its gate |
| PipelineOutcome.RunFromShape | apps/worker/sceneops_worker/pipelines/runner.py:36-70 | after any history a run that may start passes exactly up to the first unsettled task that does not meet its condition, which fixes its statuses, its ending and the jobs it adds |
| PipelineOutcome.NextRunSucceedsIff | apps/worker/sceneops_worker/pipelines/runner.py:39-59 | after any history the next run succeeds if and only if every task that is not settled yet passes |
| PipelineOutcome.JobsFollowDependencies | apps/worker/sceneops_worker/pipelines/task_runner.py:304-330 | the jobs of a fresh run belong to tasks that follow all their dependencies, at most one each |
| PipelineOutcome.RanAfterDependencies | apps/worker/sceneops_worker/pipelines/task_runner.py:249-274 | in a fresh run that succeeds every task that ran comes after all its dependencies |
| PipelineOutcome.RanTasksHaveNoCycle | packages/sceneops-core/sceneops_core/pipelines/registry.py:8-20 | in a fresh run that succeeds every dependency chain of tasks that ran goes strictly backwards |
| PipelineOutcome.EveryJobFollowsDependencies | apps/worker/sceneops_worker/pipelines/task_runner.py:249-330 | over any history, however it ends, only tasks that come after all their dependencies ever get a job |
| PipelineOutcome.JobsHaveNoCycle | packages/sceneops-core/sceneops_core/pipelines/registry.py:8-20 | over any history every dependency chain of tasks that ever got a job goes strictly backwards |
| PipelineOutcome.CyclesPassValidation | packages/sceneops-core/sceneops_core/pipelines/registry.py:8-20 | two tasks that wait for each other are accepted, and every fresh run of them fails without a job |
| PipelineProvenance.GateRunsAfterCommit | apps/worker/sceneops_worker/pipelines/task_runner.py:76-77 | before a task is left blocked, a commit shows it succeeded with the very result the gate refuses |
| PipelineProvenance.BlockedIffRefused | apps/worker/sceneops_worker/pipelines/task_runner.py:70-90 | a task run is blocked if and only if it commits a success that its gate refuses |
| PipelineProvenance.RefusedSuccessIsBlockedNext | apps/worker/sceneops_worker/pipelines/result_recorder.py:109-129 | over any sequence of runs and queuings of a created run, a commit shows a refused success if and only if the next commit blocks that task |
| PipelineProvenance.OnlySuccessesPublishIff | apps/worker/sceneops_worker/pipelines/result_builder.py:43-62 | after any history the stored result is the one its rows give, and every published value comes from a succeeded task if and only if no task stopped the run, or the one that did is not listed or holds no refs |
| PipelineProvenance.PublishedFrom | apps/worker/sceneops_worker/pipelines/result_builder.py:48-54 | key by key: what the task that stopped the run holds is published, every other value comes from a succeeded task before it |
| PipelineProvenance.ResultsAreTraced | apps/worker/sceneops_worker/pipelines/result_builder.py:48-62 | after any history every output, metric and artifact of the run is put there by a declared output of that kind of some task, from its recorded raw result |
| PipelineProvenance.ResultsHaveProvenance | apps/worker/sceneops_worker/pipelines/result_recorder.py:105-122 | after any history succeeded tasks passed their gate on their recorded result and have no error, blocked ones failed it and have the code of the first rule that fires, failed ones have another error, and every output has that provenance |
| PipelineProvenance.GuardedRunIsBlockedIff | apps/worker/sceneops_worker/pipelines/task_runner.py:76-90 | for every value but null and a rule of any type, a run whose only task returns the value is blocked if and only if the rule refuses it, and publishes it either way |
| ArtifactUris.JoinAssociates | packages/sceneops-storage/sceneops_storage/uri.py:4-11 | joining in two steps is joining all parts at once, for all strings |
| ArtifactUris.SampleUriIsPath | apps/worker/sceneops_worker/runs/artifacts.py:219-253 | the URI of a sample's result written out, for all strings |
| ArtifactUris.SampleUrisCollideIff | apps/worker/sceneops_worker/runs/artifacts.py:219-253 | two results share a URI if and only if their run and sample ids, put together as a path, read the same |
| ArtifactUris.SampleUrisOfOneRun | apps/worker/sceneops_worker/runs/artifacts.py:244-253 | within one run two samples share a URI if and only if their ids differ in leading slashes only |
| ArtifactUris.SampleUrisAcrossRuns | apps/worker/sceneops_worker/runs/artifacts.py:219-253 | with run ids that hold no slash two results share a URI if and only if they are of the same run and sample, but for leading slashes of the sample id, or one run id is empty and the other is "samples" |
| ArtifactUris.SlashedRunIdsCollide | apps/worker/sceneops_worker/runs/artifacts.py:219-253 | a run id that holds "/samples/" shares URIs with another run |

## Left out

- Floating point: distances, errors and ratios are exact reals, and the centre distance is an arbitrary function of two
  points, so overflow, infinities and the last bit of a division are not modelled.
- Malformed payloads and manifests: a prediction always has a category, an id and three coordinates, and counts are
  integers; the exceptions raised otherwise are not modelled.
- The descriptive fields of the written manifests, and the counts and sources repeated in a skipped scene's record.
- Artifact reads and writes: a map from URI to value; a failed write of a sample's result is not modelled.
- Error texts: an error is its kind, with the missing output's name or the code of the rule that fired.
- Timestamps, heartbeats, event texts and workers' process ids; new job ids are fresh by construction.
- A worker or pipeline process that dies in mid-run, the polling watcher, Celery and Airflow dispatch, and the routers.
- Job handlers and the assembly of their parameters: a handler returns any result or raises; whether a job can be planned,
  and with which steps, is an input.
- The dataset and model references among a task's inputs, and the flattening of the inputs for handlers.
- Looking up a task's definition by id: the loop hands the definition over, which is the same one when ids are distinct.
- Rows of tasks that are no longer in the definition: a run lists the rows of its definition's tasks, in order and at most
  one hundred.
- Failing store operations of the pipeline runner, and two runners of one pipeline run at a time.
- Other users of the job table while a pipeline runs: they are the subject of the job protocol, not of the pipeline model.
- Leaderboards, operations views and quality aggregates, which would add simple counting only.
