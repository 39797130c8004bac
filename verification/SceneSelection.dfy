/** Choosing the scenes of a dataset that a detection run will use. */
module SceneSelection {
  import opened Prelude
  import opened SceneIndex
  import opened Names
  import opened Ordering

  datatype Mode = All | GroundTruthOnly | ExplicitScenes

  datatype Config = Config(
    mode: Mode,
    sceneIds: seq<string>,
    minAnnotationCount: int,
    groundTruthSources: seq<string>,
    maxScenes: Option<int>,
    maxSamples: Option<int>,
    maxSamplesPerScene: Option<int>)
  {
    /** A minimum of zero counts as one. */
    function Minimum(): int {
      if minAnnotationCount == 0 then 1 else minAnnotationCount
    }

    predicate Requests(id: string) {
      sceneIds == [] || id in sceneIds
    }

    predicate AllowsSource(source: Option<string>) {
      groundTruthSources == [] || (source.Some? && source.value in groundTruthSources)
    }

    /** The early stop is only looked at after a scene was taken, so a limit of
        zero or less still lets one through. */
    function Limit(): Option<nat> {
      if maxScenes.None? then None
      else if maxScenes.value < 1 then Some(1)
      else Some(maxScenes.value)
    }

    /** The settings a selection repeats. */
    function Echo(): Settings {
      Settings(mode, minAnnotationCount, groundTruthSources, maxScenes, maxSamples, maxSamplesPerScene)
    }
  }

  datatype Settings = Settings(
    mode: Mode,
    minAnnotationCount: int,
    groundTruthSources: seq<string>,
    maxScenes: Option<int>,
    maxSamples: Option<int>,
    maxSamplesPerScene: Option<int>)

  datatype Verdict =
    | NotRequested
    | ManifestMissing
    | NoGroundTruth
    | SourceNotAllowed
    | Eligible(manifest: SceneManifest)

  function Judge(ref: SceneRef, store: SceneStore, config: Config): Verdict {
    if !config.Requests(ref.sceneId) then NotRequested
    else if ref.manifestUri !in store then ManifestMissing
    else
      var manifest := store[ref.manifestUri];
      if !config.mode.GroundTruthOnly? then Eligible(manifest)
      else if !manifest.BearsGroundTruth() || manifest.annotationCount < config.Minimum() then NoGroundTruth
      else if !config.AllowsSource(manifest.groundTruthSource) then SourceNotAllowed
      else Eligible(manifest)
  }

  datatype SkippedScene = SkippedScene(sceneId: string, reason: Verdict)

  /** The loop's variables. */
  datatype Tally = Tally(
    selectedIds: seq<string>,
    skipped: seq<SkippedScene>,
    totalCount: int,
    inspectedCount: int,
    sampleCount: int,
    annotationCount: int)

  /** What is returned: all counts, and the first of the skipped scenes. */
  datatype Selection = Selection(
    settings: Settings,
    requestedIds: seq<string>,
    selectedIds: seq<string>,
    selectedSampleCount: int,
    selectedAnnotationCount: int,
    totalCount: int,
    inspectedCount: int,
    skippedCount: int,
    shownSkipped: seq<SkippedScene>)

  /** The eligible scenes among `refs`, in dataset order. */
  function Eligibles(refs: seq<SceneRef>, store: SceneStore, config: Config): seq<SceneManifest> {
    if refs == [] then []
    else
      var front := Eligibles(refs[..|refs| - 1], store, config);
      match Judge(refs[|refs| - 1], store, config)
      case Eligible(manifest) => front + [manifest]
      case _ => front
  }

  function Rejected(refs: seq<SceneRef>, store: SceneStore, config: Config): seq<SkippedScene> {
    if refs == [] then []
    else
      var front, last := Rejected(refs[..|refs| - 1], store, config), refs[|refs| - 1];
      match Judge(last, store, config)
      case Eligible(_) => front
      case verdict => front + [SkippedScene(last.sceneId, verdict)]
  }

  predicate ForGroundTruth(skipped: SkippedScene) {
    skipped.reason.NoGroundTruth? || skipped.reason.SourceNotAllowed?
  }

  function GroundTruthRejections(skipped: seq<SkippedScene>): nat {
    if skipped == [] then 0
    else GroundTruthRejections(skipped[..|skipped| - 1]) + if ForGroundTruth(skipped[|skipped| - 1]) then 1 else 0
  }

  function Ids(manifests: seq<SceneManifest>): seq<string> {
    seq(|manifests|, i requires 0 <= i < |manifests| => manifests[i].sceneId)
  }

  function SampleSum(manifests: seq<SceneManifest>): int {
    if manifests == [] then 0 else SampleSum(manifests[..|manifests| - 1]) + manifests[|manifests| - 1].Samples()
  }

  function AnnotationSum(manifests: seq<SceneManifest>): int {
    if manifests == [] then 0
    else AnnotationSum(manifests[..|manifests| - 1]) + manifests[|manifests| - 1].annotationCount
  }

  function AtMost<T>(s: seq<T>, limit: Option<nat>): seq<T> {
    if limit.Some? && limit.value < |s| then s[..limit.value] else s
  }

  function Requested(config: Config): set<string> {
    set id | id in config.sceneIds
  }

  /** The account of the scenes visited so far. */
  function TallyOf(visited: seq<SceneRef>, store: SceneStore, config: Config): Tally {
    var chosen, rejected := Eligibles(visited, store, config), Rejected(visited, store, config);
    Tally(Ids(chosen), rejected, |visited|, |chosen| + GroundTruthRejections(rejected),
          SampleSum(chosen), AnnotationSum(chosen))
  }

  /** What is told of a tally. */
  ghost function SelectionOf(config: Config, t: Tally): Selection {
    Selection(config.Echo(), Ascending(Requested(config)), t.selectedIds, t.sampleCount, t.annotationCount,
              t.totalCount, t.inspectedCount, |t.skipped|, FirstHundred(t.skipped))
  }

  /** What a chosen scene adds to a tally, and what a skipped one adds. */
  lemma TallyChosen(visited: seq<SceneRef>, ref: SceneRef, store: SceneStore, config: Config)
    requires Judge(ref, store, config).Eligible?
    ensures
      var t, manifest := TallyOf(visited, store, config), Judge(ref, store, config).manifest;
      TallyOf(visited + [ref], store, config) ==
        Tally(t.selectedIds + [manifest.sceneId], t.skipped, t.totalCount + 1, t.inspectedCount + 1,
              t.sampleCount + manifest.Samples(), t.annotationCount + manifest.annotationCount)
  {
    hide Judge, Ids, SampleSum, AnnotationSum, Eligibles, Rejected;
    var longer := visited + [ref];
    assert longer[..|visited|] == visited && longer[..|visited| + 1] == longer;
    EligiblesSnoc(longer, store, config, |visited|);
    SumsSnoc(Eligibles(visited, store, config), Judge(ref, store, config).manifest);
  }

  lemma TallySkipped(visited: seq<SceneRef>, ref: SceneRef, store: SceneStore, config: Config)
    requires !Judge(ref, store, config).Eligible?
    ensures
      var t, skip := TallyOf(visited, store, config), SkippedScene(ref.sceneId, Judge(ref, store, config));
      TallyOf(visited + [ref], store, config) ==
        t.(skipped := t.skipped + [skip], totalCount := t.totalCount + 1,
           inspectedCount := t.inspectedCount + if ForGroundTruth(skip) then 1 else 0)
  {
    hide Judge, Ids, SampleSum, AnnotationSum, Eligibles, Rejected, ForGroundTruth;
    var longer := visited + [ref];
    assert longer[..|visited|] == visited && longer[..|visited| + 1] == longer;
    EligiblesSnoc(longer, store, config, |visited|);
    var skipped, skip := Rejected(visited, store, config), SkippedScene(ref.sceneId, Judge(ref, store, config));
    assert (skipped + [skip])[..|skipped|] == skipped;
  }

  lemma SumsSnoc(chosen: seq<SceneManifest>, manifest: SceneManifest)
    ensures Ids(chosen + [manifest]) == Ids(chosen) + [manifest.sceneId]
    ensures SampleSum(chosen + [manifest]) == SampleSum(chosen) + manifest.Samples()
    ensures AnnotationSum(chosen + [manifest]) == AnnotationSum(chosen) + manifest.annotationCount
  {
    assert (chosen + [manifest])[..|chosen|] == chosen;
  }

  /** The loop with its early stop. What it returns is described without the loop:
      the first scenes of the eligible list, and an account of the scenes visited
      to find them. */
  method SelectDetectionScenes(refs: seq<SceneRef>, store: SceneStore, config: Config) returns (s: Selection)
    ensures s.selectedIds == Ids(AtMost(Eligibles(refs, store, config), config.Limit()))
    ensures 0 <= s.totalCount <= |refs|
    ensures s == SelectionOf(config, TallyOf(refs[..s.totalCount], store, config))
    ensures s.settings == Settings(config.mode, config.minAnnotationCount, config.groundTruthSources,
                                   config.maxScenes, config.maxSamples, config.maxSamplesPerScene)
    ensures forall id :: id in s.requestedIds <==> id in config.sceneIds
    ensures s.shownSkipped <= Rejected(refs[..s.totalCount], store, config)
    ensures |s.shownSkipped| == if s.skippedCount <= 100 then s.skippedCount else 100
    ensures |s.selectedIds| + s.skippedCount == s.totalCount
    ensures s.totalCount < |refs| ==>
      && config.Limit() == Some(|s.selectedIds|)
      && 0 < s.totalCount && Judge(refs[s.totalCount - 1], store, config).Eligible?
  {
    hide Judge, TallyOf, Eligibles, Rejected, Names.Ascending;
    var requestedIds := SortNames(set id | id in config.sceneIds);
    var t := Tally([], [], 0, 0, 0, 0);
    NothingVisited(refs, store, config);
    var i := 0;
    while i < |refs|
      invariant 0 <= i <= |refs|
      invariant t == TallyOf(refs[..i], store, config)
      invariant config.Limit().Some? ==> |t.selectedIds| < config.Limit().value
    {
      var ref := refs[i];
      assert refs[..i + 1] == refs[..i] + [ref];
      var verdict := Examine(ref, store, config);
      i := i + 1;
      if !verdict.Eligible? {
        TallySkipped(refs[..i - 1], ref, store, config);
        var inspected := !verdict.NotRequested? && !verdict.ManifestMissing?;
        t := t.(skipped := t.skipped + [SkippedScene(ref.sceneId, verdict)], totalCount := t.totalCount + 1,
                inspectedCount := t.inspectedCount + if inspected then 1 else 0);
        continue;
      }
      TallyChosen(refs[..i - 1], ref, store, config);
      t := Tally(t.selectedIds + [verdict.manifest.sceneId], t.skipped, t.totalCount + 1, t.inspectedCount + 1,
                 t.sampleCount + verdict.manifest.Samples(),
                 t.annotationCount + verdict.manifest.annotationCount);
      if config.maxScenes.Some? {
        if |t.selectedIds| >= config.maxScenes.value {
          break;
        }
      }
    }
    SelectedSoFar(refs, store, config, i);
    AscendingAscends(Requested(config));
    assert t.skipped == Rejected(refs[..i], store, config) by {
      TallySkips(refs[..i], store, config);
    }
    s := Selection(config.Echo(), requestedIds, t.selectedIds, t.sampleCount, t.annotationCount,
                   t.totalCount, t.inspectedCount, |t.skipped|, FirstHundred(t.skipped));
  }

  lemma TallySkips(visited: seq<SceneRef>, store: SceneStore, config: Config)
    ensures TallyOf(visited, store, config).skipped == Rejected(visited, store, config)
  {
  }

  lemma NothingVisited(refs: seq<SceneRef>, store: SceneStore, config: Config)
    ensures TallyOf(refs[..0], store, config) == Tally([], [], 0, 0, 0, 0)
  {
  }

  lemma SelectedSoFar(refs: seq<SceneRef>, store: SceneStore, config: Config, n: nat)
    requires n <= |refs|
    requires
      var count := |TallyOf(refs[..n], store, config).selectedIds|;
      && (n < |refs| ==> config.Limit() == Some(count))
      && (config.Limit().Some? ==> count <= config.Limit().value)
    ensures
      var t := TallyOf(refs[..n], store, config);
      && t.totalCount == n
      && |t.selectedIds| + |t.skipped| == n
      && t.selectedIds == Ids(AtMost(Eligibles(refs, store, config), config.Limit()))
  {
    hide Judge, SampleSum, AnnotationSum, Eligibles, Rejected, GroundTruthRejections, Config.Limit;
    EligiblesPrefix(refs, store, config, n);
    EveryVisitedCounts(refs[..n], store, config);
    if n == |refs| {
      assert refs[..n] == refs;
    }
  }

  /** Every scene visited is either selected or skipped. */
  lemma {:induction false} EveryVisitedCounts(visited: seq<SceneRef>, store: SceneStore, config: Config)
    ensures |Eligibles(visited, store, config)| + |Rejected(visited, store, config)| == |visited|
  {
    hide Judge;
    if visited != [] {
      EveryVisitedCounts(visited[..|visited| - 1], store, config);
    }
  }

  /** The branches of one iteration, in the order the loop takes them. */
  method Examine(ref: SceneRef, store: SceneStore, config: Config) returns (verdict: Verdict)
    ensures verdict == Judge(ref, store, config)
  {
    if config.sceneIds != [] && ref.sceneId !in config.sceneIds {
      return NotRequested;
    }
    if ref.manifestUri !in store {
      return ManifestMissing;
    }
    var manifest := store[ref.manifestUri];
    if config.mode.GroundTruthOnly? {
      if !manifest.BearsGroundTruth() || manifest.annotationCount < config.Minimum() {
        return NoGroundTruth;
      }
      if config.groundTruthSources != [] {
        if manifest.groundTruthSource.None? || manifest.groundTruthSource.value !in config.groundTruthSources {
          return SourceNotAllowed;
        }
      }
    }
    return Eligible(manifest);
  }

  // ---- why a scene is skipped ----

  predicate IsRequested(ref: SceneRef, config: Config) {
    config.sceneIds == [] || ref.sceneId in config.sceneIds
  }

  predicate EnoughGroundTruth(manifest: SceneManifest, config: Config) {
    && (manifest.hasGroundTruth || manifest.annotationCount > 0)
    && manifest.annotationCount >= (if config.minAnnotationCount == 0 then 1 else config.minAnnotationCount)
  }

  predicate FromAllowedSource(manifest: SceneManifest, config: Config) {
    || config.groundTruthSources == []
    || exists source | source in config.groundTruthSources :: manifest.groundTruthSource == Some(source)
  }

  /** What each verdict says of a scene, on its own. */
  predicate Means(verdict: Verdict, ref: SceneRef, store: SceneStore, config: Config) {
    match verdict
    case NotRequested => !IsRequested(ref, config)
    case ManifestMissing => IsRequested(ref, config) && ref.manifestUri !in store
    case NoGroundTruth =>
      && IsRequested(ref, config) && ref.manifestUri in store && config.mode == GroundTruthOnly
      && !EnoughGroundTruth(store[ref.manifestUri], config)
    case SourceNotAllowed =>
      && IsRequested(ref, config) && ref.manifestUri in store && config.mode == GroundTruthOnly
      && EnoughGroundTruth(store[ref.manifestUri], config) && !FromAllowedSource(store[ref.manifestUri], config)
    case Eligible(manifest) =>
      && IsRequested(ref, config) && ref.manifestUri in store && manifest == store[ref.manifestUri]
      && (config.mode == GroundTruthOnly ==>
            EnoughGroundTruth(manifest, config) && FromAllowedSource(manifest, config))
  }

  lemma VerdictMeans(ref: SceneRef, store: SceneStore, config: Config, verdict: Verdict)
    ensures verdict == Judge(ref, store, config) <==> Means(verdict, ref, store, config)
  {
  }

  /** Every selected scene was eligible, every skipped one has the reason recorded for
      it, and no scene has two verdicts. */
  lemma {:induction false} EveryVerdictHolds(refs: seq<SceneRef>, store: SceneStore, config: Config)
    ensures forall manifest | manifest in Eligibles(refs, store, config) ::
      exists ref :: ref in refs && Means(Eligible(manifest), ref, store, config)
    ensures forall skip | skip in Rejected(refs, store, config) ::
      exists ref :: ref in refs && ref.sceneId == skip.sceneId && Means(skip.reason, ref, store, config)
    ensures forall ref, v, w | ref in refs && Means(v, ref, store, config) && Means(w, ref, store, config) :: v == w
  {
    hide Judge, Means;
    forall ref: SceneRef, v: Verdict
      ensures v == Judge(ref, store, config) <==> Means(v, ref, store, config)
    {
      VerdictMeans(ref, store, config, v);
    }
    if refs != [] {
      var front, last := refs[..|refs| - 1], refs[|refs| - 1];
      assert refs == front + [last] && Means(Judge(last, store, config), last, store, config);
      EveryVerdictHolds(front, store, config);
      forall manifest | manifest in Eligibles(front, store, config)
        ensures exists ref :: ref in refs && Means(Eligible(manifest), ref, store, config)
      {
        var ref :| ref in front && Means(Eligible(manifest), ref, store, config);
        assert ref in refs;
      }
      forall skip | skip in Rejected(front, store, config)
        ensures exists ref :: ref in refs && ref.sceneId == skip.sceneId && Means(skip.reason, ref, store, config)
      {
        var ref :| ref in front && ref.sceneId == skip.sceneId && Means(skip.reason, ref, store, config);
        assert ref in refs;
      }
    }
  }

  function Inspected(refs: seq<SceneRef>, store: SceneStore, config: Config): set<nat> {
    set i: nat | i < |refs| && IsRequested(refs[i], config) && refs[i].manifestUri in store
  }

  /** The scenes counted as inspected are those requested and found. */
  lemma {:induction false} InspectedAreFound(refs: seq<SceneRef>, store: SceneStore, config: Config)
    ensures TallyOf(refs, store, config).inspectedCount == |Inspected(refs, store, config)|
  {
    hide Judge, SampleSum, AnnotationSum, Ids, Means, TallyOf;
    if refs == [] {
      assert Inspected(refs, store, config) == {};
      NothingVisited(refs, store, config);
      assert refs[..0] == refs;
    } else {
      var last := |refs| - 1;
      var front, ref := refs[..last], refs[last];
      InspectedAreFound(front, store, config);
      assert refs == front + [ref];
      if Judge(ref, store, config).Eligible? {
        TallyChosen(front, ref, store, config);
      } else {
        TallySkipped(front, ref, store, config);
      }
      VerdictIsInspected(ref, store, config);
      assert Inspected(refs, store, config) ==
        Inspected(front, store, config)
        + if IsRequested(ref, config) && ref.manifestUri in store then {last} else {};
    }
  }

  lemma VerdictIsInspected(ref: SceneRef, store: SceneStore, config: Config)
    ensures
      var verdict := Judge(ref, store, config);
      verdict.Eligible? || ForGroundTruth(SkippedScene(ref.sceneId, verdict)) <==>
        IsRequested(ref, config) && ref.manifestUri in store
  {
  }

  /** What is selected adds up to the counts that are told. */
  lemma {:induction false} SelectedSums(chosen: seq<SceneManifest>)
    ensures SampleSum(chosen) == SumBy(chosen, SamplesOf) && AnnotationSum(chosen) == SumBy(chosen, AnnotationsOf)
  {
    if chosen != [] {
      SelectedSums(chosen[..|chosen| - 1]);
    }
  }

  function SamplesOf(manifest: SceneManifest): int {
    if manifest.sampleCount == 0 then |manifest.samples| else manifest.sampleCount
  }

  function AnnotationsOf(manifest: SceneManifest): int {
    manifest.annotationCount
  }

  /** A stricter configuration selects no scene that a looser one rejects. */
  lemma {:induction false} StricterSelectsFewer(refs: seq<SceneRef>, store: SceneStore, loose: Config, strict: Config)
    requires strict.mode.GroundTruthOnly? || !loose.mode.GroundTruthOnly?
    requires forall id | strict.Requests(id) :: loose.Requests(id)
    requires loose.Minimum() <= strict.Minimum()
    requires forall source | strict.AllowsSource(source) :: loose.AllowsSource(source)
    ensures forall manifest | manifest in Eligibles(refs, store, strict) :: manifest in Eligibles(refs, store, loose)
    ensures |Eligibles(refs, store, strict)| <= |Eligibles(refs, store, loose)|
  {
    if refs != [] {
      StricterSelectsFewer(refs[..|refs| - 1], store, loose, strict);
    }
  }

  lemma EligiblesSnoc(refs: seq<SceneRef>, store: SceneStore, config: Config, i: nat)
    requires i < |refs|
    ensures
      match Judge(refs[i], store, config)
      case Eligible(manifest) =>
        && Eligibles(refs[..i + 1], store, config) == Eligibles(refs[..i], store, config) + [manifest]
        && Rejected(refs[..i + 1], store, config) == Rejected(refs[..i], store, config)
      case verdict =>
        && Eligibles(refs[..i + 1], store, config) == Eligibles(refs[..i], store, config)
        && Rejected(refs[..i + 1], store, config) ==
             Rejected(refs[..i], store, config) + [SkippedScene(refs[i].sceneId, verdict)]
  {
    hide Judge;
    assert refs[..i + 1][..i] == refs[..i];
  }

  /** The eligible scenes of a prefix are a prefix of the eligible scenes. */
  lemma {:induction false} EligiblesPrefix(refs: seq<SceneRef>, store: SceneStore, config: Config, n: nat)
    requires n <= |refs|
    ensures Eligibles(refs[..n], store, config) <= Eligibles(refs, store, config)
  {
    hide Judge;
    if n < |refs| {
      var front := refs[..|refs| - 1];
      EligiblesPrefix(front, store, config, n);
      assert front[..n] == refs[..n];
    } else {
      assert refs[..n] == refs;
    }
  }

  // ---- the limit ----

  /** The selection stays within `max_scenes` (a negative one read as zero) exactly
      when that is positive or there is nothing to select. */
  lemma LimitIsRespected(refs: seq<SceneRef>, store: SceneStore, config: Config, max: int)
    requires config.maxScenes == Some(max)
    ensures
      var chosen := AtMost(Eligibles(refs, store, config), config.Limit());
      (|chosen| <= if max < 0 then 0 else max) <==> (1 <= max || Eligibles(refs, store, config) == [])
  {
  }

  // ---- agreement with the evaluator's index ----

  /** A chosen scene was loaded by the index as well, from the same manifest. */
  lemma {:induction false} ChosenIsIndexed(refs: seq<SceneRef>, store: SceneStore, config: Config, k: nat)
    returns (i: nat)
    requires k < |Eligibles(refs, store, config)|
    ensures i < |Entries(refs, store)|
    ensures Entries(refs, store)[i].manifest == Eligibles(refs, store, config)[k]
    ensures Entries(refs, store)[i].sceneId == Eligibles(refs, store, config)[k].sceneId
    ensures Entries(refs, store)[i].annotationCount == Eligibles(refs, store, config)[k].annotationCount
    ensures config.mode.GroundTruthOnly? ==>
      && Entries(refs, store)[i].hasGroundTruth
      && Entries(refs, store)[i].annotationCount >= config.Minimum()
  {
    var front := refs[..|refs| - 1];
    if k < |Eligibles(front, store, config)| {
      i := ChosenIsIndexed(front, store, config, k);
    } else {
      i := |Entries(front, store)|;
    }
  }

  /** With unique scene ids, a scene chosen in ground-truth mode bears ground truth
      in the evaluator's index. */
  lemma ChosenBearsGroundTruth(refs: seq<SceneRef>, store: SceneStore, config: Config, k: nat)
    requires config.mode.GroundTruthOnly? && UniqueScenes(Entries(refs, store))
    requires k < |AtMost(Eligibles(refs, store, config), config.Limit())|
    ensures
      var index, chosen := IndexOf(Entries(refs, store)), Eligibles(refs, store, config)[k];
      && chosen.sceneId in index.scenesById
      && index.scenesById[chosen.sceneId].manifest == chosen
      && index.scenesById[chosen.sceneId].hasGroundTruth
  {
    var i := ChosenIsIndexed(refs, store, config, k);
    SceneIsFound(Entries(refs, store), i);
  }

  /** Without unique ids it fails: the last scene of that id hides the chosen one. */
  lemma DuplicateIdHidesGroundTruth()
    ensures
      var good := SceneManifest("s", [], 0, 0, 1, true, None);
      var bare := SceneManifest("s", [], 0, 0, 0, false, None);
      var refs, store := [SceneRef("s", "a"), SceneRef("s", "b")], map["a" := good, "b" := bare];
      var config := Config(GroundTruthOnly, [], 1, [], None, None, None);
      && AtMost(Eligibles(refs, store, config), config.Limit()) == [good]
      && !IndexOf(Entries(refs, store)).scenesById["s"].hasGroundTruth
  {
    hide Eligibles, SceneIndex.Entries, SceneIndex.IndexOf;
    var good := SceneManifest("s", [], 0, 0, 1, true, None);
    var bare := SceneManifest("s", [], 0, 0, 0, false, None);
    var store := map["a" := good, "b" := bare];
    var config := Config(GroundTruthOnly, [], 1, [], None, None, None);
    TwoScenes(SceneRef("s", "a"), SceneRef("s", "b"), store, config, good, bare);
  }

  lemma TwoScenes(first: SceneRef, second: SceneRef, store: SceneStore, config: Config,
                  good: SceneManifest, bare: SceneManifest)
    requires first.manifestUri in store && second.manifestUri in store && store[second.manifestUri] == bare
    requires Judge(first, store, config) == Eligible(good) && !Judge(second, store, config).Eligible?
    ensures Eligibles([first, second], store, config) == [good]
    ensures
      var index := IndexOf(Entries([first, second], store));
      bare.sceneId in index.scenesById && index.scenesById[bare.sceneId] == EntryOf(second, bare)
  {
    hide Judge, SceneIndex.IndexOf;
    var refs := [first, second];
    assert refs[..0] == [] && refs[..1] == [first] && refs[..2] == refs;
    EligiblesSnoc(refs, store, config, 0);
    EligiblesSnoc(refs, store, config, 1);
    EntriesSnoc(refs, store, 0);
    EntriesSnoc(refs, store, 1);
    LastIsFound(Entries(refs, store), 1);
  }

  ghost predicate FoundWithGroundTruth(index: Index, id: string) {
    id in index.scenesById && index.scenesById[id].hasGroundTruth
  }

  /** Every scene chosen in ground-truth mode, under any configuration, bears ground
      truth in the index. */
  ghost predicate ChosenAlwaysFound(refs: seq<SceneRef>, store: SceneStore) {
    forall config: Config, k: nat |
      config.mode.GroundTruthOnly? && k < |AtMost(Eligibles(refs, store, config), config.Limit())| ::
      FoundWithGroundTruth(IndexOf(Entries(refs, store)), Eligibles(refs, store, config)[k].sceneId)
  }

  /** No scene with ground truth is followed by one of the same id without, unless
      yet another one has it again. */
  ghost predicate LastsBearGroundTruth(entries: seq<Entry>) {
    forall i, j | 0 <= i <= j && IsLast(entries, j) && entries[j].sceneId == entries[i].sceneId ::
      entries[i].hasGroundTruth ==> entries[j].hasGroundTruth
  }

  lemma {:induction false} EntryIsChosen(refs: seq<SceneRef>, store: SceneStore, config: Config, i: nat)
    returns (k: nat)
    requires i < |Entries(refs, store)| && config.sceneIds == [] && config.groundTruthSources == []
    requires Entries(refs, store)[i].hasGroundTruth && config.Minimum() <= Entries(refs, store)[i].annotationCount
    ensures k < |Eligibles(refs, store, config)|
    ensures Eligibles(refs, store, config)[k].sceneId == Entries(refs, store)[i].sceneId
  {
    var front := refs[..|refs| - 1];
    if i < |Entries(front, store)| {
      k := EntryIsChosen(front, store, config, i);
    } else {
      k := |Eligibles(front, store, config)|;
    }
  }

  /** A chosen scene is always found with its ground truth exactly when, for every id,
      the last scene of that id bears ground truth if any of them does. */
  lemma ChosenAlwaysFoundIff(refs: seq<SceneRef>, store: SceneStore)
    ensures ChosenAlwaysFound(refs, store) <==> LastsBearGroundTruth(Entries(refs, store))
  {
    hide SceneIndex.IndexOf, SceneIndex.Entries, Eligibles;
    var entries := Entries(refs, store);
    if ChosenAlwaysFound(refs, store) {
      forall i, j | 0 <= i <= j && IsLast(entries, j) && entries[j].sceneId == entries[i].sceneId
        ensures entries[i].hasGroundTruth ==> entries[j].hasGroundTruth
      {
        if entries[i].hasGroundTruth {
          var count := entries[i].annotationCount;
          var config := Config(GroundTruthOnly, [], if count < -1 then count else -1, [], None, None, None);
          var k := EntryIsChosen(refs, store, config, i);
          assert k < |AtMost(Eligibles(refs, store, config), config.Limit())|;
          LastIsFound(entries, j);
        }
      }
    }
    if LastsBearGroundTruth(entries) {
      forall config: Config, k: nat |
        config.mode.GroundTruthOnly? && k < |AtMost(Eligibles(refs, store, config), config.Limit())|
        ensures FoundWithGroundTruth(IndexOf(entries), Eligibles(refs, store, config)[k].sceneId)
      {
        var i := ChosenIsIndexed(refs, store, config, k);
        var j := SomeIsLast(entries, i);
        LastIsFound(entries, j);
      }
    }
  }

  ghost predicate CountsNotNegative(store: SceneStore) {
    forall uri | uri in store :: 0 <= store[uri].annotationCount
  }

  /** A non-empty ground-truth selection from a dataset whose indexed annotation
      total is zero: the evaluator would skip the whole run. */
  ghost predicate SelectedButSkipped(refs: seq<SceneRef>, store: SceneStore, config: Config) {
    && CountsNotNegative(store)
    && Eligibles(refs, store, config) != []
    && IndexOf(Entries(refs, store)).annotationCount == 0
  }

  lemma {:induction false} EntriesNotNegative(refs: seq<SceneRef>, store: SceneStore)
    requires CountsNotNegative(store)
    ensures forall e | e in Entries(refs, store) :: 0 <= e.annotationCount
  {
    if refs != [] {
      EntriesNotNegative(refs[..|refs| - 1], store);
    }
  }

  lemma NeverSelectedButSkipped(refs: seq<SceneRef>, store: SceneStore, config: Config)
    requires config.mode.GroundTruthOnly? && 0 <= config.minAnnotationCount
    ensures !SelectedButSkipped(refs, store, config)
  {
    if SelectedButSkipped(refs, store, config) {
      var i := ChosenIsIndexed(refs, store, config, 0);
      EntriesNotNegative(refs, store);
      AnnotatedSceneCounts(Entries(refs, store), Entries(refs, store)[i]);
    }
  }

  /** A flagged scene without annotations passes a negative minimum. */
  lemma NegativeMinimumSlips(config: Config) returns (refs: seq<SceneRef>, store: SceneStore)
    requires config.mode.GroundTruthOnly? && config.minAnnotationCount < 0
    ensures SelectedButSkipped(refs, store, config)
  {
    var id := if config.sceneIds == [] then "s" else config.sceneIds[0];
    var source := if config.groundTruthSources == [] then None else Some(config.groundTruthSources[0]);
    var flagged := SceneManifest(id, [], 0, 0, 0, true, source);
    var ref := SceneRef(id, "u");
    refs, store := [ref], map["u" := flagged];
    assert Judge(ref, store, config) == Eligible(flagged);
    OneScene(ref, store, config, flagged);
  }

  lemma OneScene(ref: SceneRef, store: SceneStore, config: Config, manifest: SceneManifest)
    requires ref.manifestUri in store && store[ref.manifestUri] == manifest
    requires Judge(ref, store, config) == Eligible(manifest)
    ensures Eligibles([ref], store, config) == [manifest]
    ensures IndexOf(Entries([ref], store)).annotationCount == manifest.annotationCount
  {
    hide Judge;
    var entries := Entries([ref], store);
    assert [ref][..0] == [] && [ref][..1] == [ref];
    EligiblesSnoc([ref], store, config, 0);
    EntriesSnoc([ref], store, 0);
    assert entries[..0] == [];
  }

  /** Selection and evaluation agree on whether there is anything to evaluate, for
      every dataset, exactly when the configured minimum is not negative. */
  lemma SelectionAgreesWithEvaluation(config: Config)
    requires config.mode.GroundTruthOnly?
    ensures
      (forall refs: seq<SceneRef>, store: SceneStore :: !SelectedButSkipped(refs, store, config))
        <==> 0 <= config.minAnnotationCount
  {
    if 0 <= config.minAnnotationCount {
      forall refs: seq<SceneRef>, store: SceneStore ensures !SelectedButSkipped(refs, store, config) {
        NeverSelectedButSkipped(refs, store, config);
      }
    } else {
      var refs, store := NegativeMinimumSlips(config);
    }
  }
}
