/** The in-memory index of a dataset's scenes and samples. */
module SceneIndex {
  import opened Prelude
  import opened GreedyMatching
  import opened Ordering

  /** A sample, with the number of its sensor frames. */
  datatype Sample = Sample(sampleId: string, annotations: seq<Annotation>, frames: nat)

  datatype SceneManifest = SceneManifest(
    sceneId: string,
    samples: seq<Sample>,
    sampleCount: int,
    frameCount: int,
    annotationCount: int,
    hasGroundTruth: bool,
    groundTruthSource: Option<string>)
  {
    /** The flag, or any annotation at all. */
    predicate BearsGroundTruth() {
      hasGroundTruth || annotationCount > 0
    }

    /** A recorded count of zero falls back to the list itself. */
    function Samples(): int {
      if sampleCount != 0 then sampleCount else |samples|
    }

    /** Likewise for the frames of all samples. */
    function Frames(): int {
      if frameCount != 0 then frameCount else FrameSum(samples)
    }
  }

  function FrameSum(samples: seq<Sample>): nat {
    if samples == [] then 0 else FrameSum(samples[..|samples| - 1]) + samples[|samples| - 1].frames
  }

  /** One scene of the dataset manifest. */
  datatype SceneRef = SceneRef(sceneId: string, manifestUri: string)

  type SceneStore = map<string, SceneManifest>

  datatype Entry = Entry(
    sceneId: string,
    manifestUri: string,
    manifest: SceneManifest,
    sampleCount: int,
    frameCount: int,
    annotationCount: int,
    hasGroundTruth: bool,
    groundTruthSource: Option<string>)

  datatype Index = Index(
    scenes: seq<Entry>,
    scenesById: map<string, Entry>,
    samplesById: map<string, Sample>,
    sceneBySampleId: map<string, Entry>,
    sampleCount: int,
    frameCount: int,
    annotationCount: int,
    groundTruthSceneCount: int)

  function EntryOf(ref: SceneRef, manifest: SceneManifest): Entry {
    Entry(manifest.sceneId, ref.manifestUri, manifest, manifest.Samples(), manifest.Frames(),
          manifest.annotationCount, manifest.BearsGroundTruth(), manifest.groundTruthSource)
  }

  /** The entries of the scenes whose manifest is in the store. */
  function Entries(refs: seq<SceneRef>, store: SceneStore): seq<Entry> {
    if refs == [] then []
    else
      var last := refs[|refs| - 1];
      Entries(refs[..|refs| - 1], store)
      + if last.manifestUri in store then [EntryOf(last, store[last.manifestUri])] else []
  }

  /** The two sample maps after the first samples of a scene have been entered. */
  function WithSamples(samplesById: map<string, Sample>, samples: seq<Sample>): map<string, Sample> {
    if samples == [] then samplesById
    else
      var last := samples[|samples| - 1];
      WithSamples(samplesById, samples[..|samples| - 1])[last.sampleId := last]
  }

  function WithScene(sceneBySampleId: map<string, Entry>, samples: seq<Sample>, scene: Entry): map<string, Entry> {
    if samples == [] then sceneBySampleId
    else WithScene(sceneBySampleId, samples[..|samples| - 1], scene)[samples[|samples| - 1].sampleId := scene]
  }

  function Enter(index: Index, scene: Entry): Index {
    Index(
      index.scenes + [scene],
      index.scenesById[scene.sceneId := scene],
      WithSamples(index.samplesById, scene.manifest.samples),
      WithScene(index.sceneBySampleId, scene.manifest.samples, scene),
      index.sampleCount + scene.sampleCount,
      index.frameCount + scene.frameCount,
      index.annotationCount + scene.annotationCount,
      index.groundTruthSceneCount + if scene.hasGroundTruth then 1 else 0)
  }

  function EmptyIndex(): Index {
    Index([], map[], map[], map[], 0, 0, 0, 0)
  }

  function IndexOf(entries: seq<Entry>): Index {
    if entries == [] then EmptyIndex()
    else Enter(IndexOf(entries[..|entries| - 1]), entries[|entries| - 1])
  }

  method BuildSceneIndex(refs: seq<SceneRef>, store: SceneStore) returns (index: Index)
    ensures index == IndexOf(Entries(refs, store))
  {
    hide WithSamples, WithScene, EntryOf, IndexOf, Entries;
    EmptyDataset(refs, store);
    index := EmptyIndex();
    for i := 0 to |refs|
      invariant index == IndexOf(Entries(refs[..i], store))
    {
      EntriesSnoc(refs, store, i);
      var ref := refs[i];
      if ref.manifestUri in store {
        var scene := LoadScene(ref, store[ref.manifestUri]);
        var samplesById, sceneBySampleId := EnterSamples(index.samplesById, index.sceneBySampleId, scene);
        IndexSnoc(Entries(refs[..i], store), scene);
        index := Index(
          index.scenes + [scene],
          index.scenesById[scene.sceneId := scene],
          samplesById,
          sceneBySampleId,
          index.sampleCount + scene.sampleCount,
          index.frameCount + scene.frameCount,
          index.annotationCount + scene.annotationCount,
          index.groundTruthSceneCount + if scene.hasGroundTruth then 1 else 0);
      }
    }
    assert refs[..|refs|] == refs;
  }

  lemma EmptyDataset(refs: seq<SceneRef>, store: SceneStore)
    ensures IndexOf(Entries(refs[..0], store)) == EmptyIndex()
  {
  }

  method LoadScene(ref: SceneRef, manifest: SceneManifest) returns (scene: Entry)
    ensures scene == EntryOf(ref, manifest)
  {
    var samples := if manifest.sampleCount != 0 then manifest.sampleCount else |manifest.samples|;
    var frames := manifest.frameCount;
    if frames == 0 {
      frames := SumFrames(manifest.samples);
    }
    var hasGroundTruth := manifest.hasGroundTruth || manifest.annotationCount > 0;
    scene := Entry(manifest.sceneId, ref.manifestUri, manifest, samples, frames,
                   manifest.annotationCount, hasGroundTruth, manifest.groundTruthSource);
  }

  method SumFrames(samples: seq<Sample>) returns (frames: nat)
    ensures frames == FrameSum(samples)
  {
    frames := 0;
    for i := 0 to |samples|
      invariant frames == FrameSum(samples[..i])
    {
      assert samples[..i + 1][..i] == samples[..i];
      frames := frames + samples[i].frames;
    }
    assert samples[..|samples|] == samples;
  }

  method EnterSamples(samplesById: map<string, Sample>, sceneBySampleId: map<string, Entry>, scene: Entry)
    returns (samples: map<string, Sample>, scenes: map<string, Entry>)
    ensures samples == WithSamples(samplesById, scene.manifest.samples)
    ensures scenes == WithScene(sceneBySampleId, scene.manifest.samples, scene)
  {
    var all := scene.manifest.samples;
    samples, scenes := samplesById, sceneBySampleId;
    for i := 0 to |all|
      invariant samples == WithSamples(samplesById, all[..i])
      invariant scenes == WithScene(sceneBySampleId, all[..i], scene)
    {
      assert all[..i + 1][..i] == all[..i];
      samples := samples[all[i].sampleId := all[i]];
      scenes := scenes[all[i].sampleId := scene];
    }
    assert all[..|all|] == all;
  }

  lemma EntriesSnoc(refs: seq<SceneRef>, store: SceneStore, i: nat)
    requires i < |refs|
    ensures
      Entries(refs[..i + 1], store) ==
        if refs[i].manifestUri in store
        then Entries(refs[..i], store) + [EntryOf(refs[i], store[refs[i].manifestUri])]
        else Entries(refs[..i], store)
  {
    assert refs[..i + 1][..i] == refs[..i];
  }

  lemma IndexSnoc(entries: seq<Entry>, scene: Entry)
    ensures IndexOf(entries + [scene]) == Enter(IndexOf(entries), scene)
  {
    assert (entries + [scene])[..|entries|] == entries;
  }

  // ---- what the index promises ----

  /** The two sample maps have the same keys, and agree on where a sample lives. */
  ghost predicate Lockstep(index: Index) {
    && (forall id | id in index.scenesById ::
          index.scenesById[id].sceneId == id && index.scenesById[id] in index.scenes)
    && index.samplesById.Keys == index.sceneBySampleId.Keys
    && (forall id | id in index.samplesById ::
          && index.samplesById[id].sampleId == id
          && index.sceneBySampleId[id] in index.scenes
          && index.samplesById[id] in index.sceneBySampleId[id].manifest.samples)
  }

  ghost predicate Holds(samples: seq<Sample>, id: string) {
    exists i :: 0 <= i < |samples| && samples[i].sampleId == id
  }

  lemma {:induction false} EnteredOwn(before: map<string, Sample>, scenes: map<string, Entry>, samples: seq<Sample>,
                                     scene: Entry, id: string)
    requires Holds(samples, id)
    ensures
      var s, t := WithSamples(before, samples), WithScene(scenes, samples, scene);
      && id in s && s[id].sampleId == id && s[id] in samples
      && id in t && t[id] == scene
  {
    var front, last := samples[..|samples| - 1], samples[|samples| - 1];
    if last.sampleId != id {
      var i :| 0 <= i < |samples| && samples[i].sampleId == id;
      assert front[i].sampleId == id;
      EnteredOwn(before, scenes, front, scene, id);
    }
  }

  lemma {:induction false} EnteredOther(before: map<string, Sample>, scenes: map<string, Entry>, samples: seq<Sample>,
                                     scene: Entry, id: string)
    requires !Holds(samples, id)
    ensures
      var s, t := WithSamples(before, samples), WithScene(scenes, samples, scene);
      && (id in s <==> id in before) && (id in s ==> s[id] == before[id])
      && (id in t <==> id in scenes) && (id in t ==> t[id] == scenes[id])
  {
    if samples != [] {
      var front := samples[..|samples| - 1];
      assert forall i | 0 <= i < |front| :: front[i] == samples[i];
      EnteredOther(before, scenes, front, scene, id);
    }
  }

  lemma {:induction false} IndexLockstep(entries: seq<Entry>)
    ensures Lockstep(IndexOf(entries))
    ensures IndexOf(entries).scenes == entries
  {
    if entries != [] {
      var front, scene := entries[..|entries| - 1], entries[|entries| - 1];
      IndexLockstep(front);
      EnterKeepsLockstep(IndexOf(front), scene);
    }
  }

  lemma EnterKeepsLockstep(index: Index, scene: Entry)
    requires Lockstep(index)
    ensures Lockstep(Enter(index, scene))
  {
    hide WithSamples, WithScene, Holds;
    var after := Enter(index, scene);
    assert after.scenes[|index.scenes|] == scene;
    assert forall e | e in index.scenes :: e in after.scenes;
    forall id: string
      ensures id in after.samplesById <==> id in after.sceneBySampleId
      ensures id in after.samplesById ==>
        && after.samplesById[id].sampleId == id
        && after.sceneBySampleId[id] in after.scenes
        && after.samplesById[id] in after.sceneBySampleId[id].manifest.samples
    {
      if Holds(scene.manifest.samples, id) {
        EnteredOwn(index.samplesById, index.sceneBySampleId, scene.manifest.samples, scene, id);
      } else {
        EnteredOther(index.samplesById, index.sceneBySampleId, scene.manifest.samples, scene, id);
      }
    }
  }

  ghost predicate UniqueScenes(entries: seq<Entry>) {
    forall i, j | 0 <= i < j < |entries| :: entries[i].sceneId != entries[j].sceneId
  }

  /** No sample id occurs in two scenes, or twice in one. */
  ghost predicate UniqueSamples(entries: seq<Entry>) {
    && (forall i, j | 0 <= i < j < |entries| ::
          forall x, y | x in entries[i].manifest.samples && y in entries[j].manifest.samples ::
            x.sampleId != y.sampleId)
    && (forall i | 0 <= i < |entries| ::
          forall x, y | x in entries[i].manifest.samples && y in entries[i].manifest.samples ::
            x.sampleId == y.sampleId ==> x == y)
  }

  /** With unique scene ids every scene is found under its own id. */
  lemma {:induction false} SceneIsFound(entries: seq<Entry>, i: nat)
    requires i < |entries| && UniqueScenes(entries)
    ensures
      var index := IndexOf(entries);
      entries[i].sceneId in index.scenesById && index.scenesById[entries[i].sceneId] == entries[i]
  {
    if i < |entries| - 1 {
      SceneIsFound(entries[..|entries| - 1], i);
    }
  }

  /** No later scene has the id of the one at `i`. */
  ghost predicate IsLast(entries: seq<Entry>, i: nat) {
    i < |entries| && forall j | i < j < |entries| :: entries[j].sceneId != entries[i].sceneId
  }

  /** Whatever the ids, the last scene of an id is the one found under it. */
  lemma {:induction false} LastIsFound(entries: seq<Entry>, i: nat)
    requires IsLast(entries, i)
    ensures
      var index := IndexOf(entries);
      entries[i].sceneId in index.scenesById && index.scenesById[entries[i].sceneId] == entries[i]
  {
    hide WithSamples, WithScene;
    if i < |entries| - 1 {
      LastIsFound(entries[..|entries| - 1], i);
    }
  }

  lemma {:induction false} SomeIsLast(entries: seq<Entry>, i: nat) returns (j: nat)
    requires i < |entries|
    ensures i <= j && IsLast(entries, j) && entries[j].sceneId == entries[i].sceneId
    decreases |entries| - i
  {
    if k :| i < k < |entries| && entries[k].sceneId == entries[i].sceneId {
      j := SomeIsLast(entries, k);
    } else {
      j := i;
    }
  }

  /** With unique sample ids every sample is found, and in its own scene. */
  lemma {:induction false} SampleIsFound(entries: seq<Entry>, i: nat, x: Sample)
    requires i < |entries| && x in entries[i].manifest.samples && UniqueSamples(entries)
    ensures
      var index := IndexOf(entries);
      && x.sampleId in index.samplesById && index.samplesById[x.sampleId] == x
      && x.sampleId in index.sceneBySampleId && index.sceneBySampleId[x.sampleId] == entries[i]
  {
    hide WithSamples, WithScene;
    var front, scene := entries[..|entries| - 1], entries[|entries| - 1];
    var before := IndexOf(front);
    if i < |front| {
      assert front[i] == entries[i];
      SampleIsFound(front, i, x);
      ForeignSample(entries, i, x);
      EnteredOther(before.samplesById, before.sceneBySampleId, scene.manifest.samples, scene, x.sampleId);
    } else {
      EnteredOwn(before.samplesById, before.sceneBySampleId, scene.manifest.samples, scene, x.sampleId);
    }
  }

  lemma ForeignSample(entries: seq<Entry>, i: nat, x: Sample)
    requires i < |entries| - 1 && x in entries[i].manifest.samples && UniqueSamples(entries)
    ensures !Holds(entries[|entries| - 1].manifest.samples, x.sampleId)
  {
  }

  /** An index entry states what the stored manifest of a listed scene states, with its
      lists counted where a count is missing. */
  ghost predicate Describes(e: Entry, refs: seq<SceneRef>, store: SceneStore) {
    && (exists ref :: ref in refs && ref.manifestUri == e.manifestUri)
    && e.manifestUri in store && e.manifest == store[e.manifestUri]
    && e.sceneId == e.manifest.sceneId
    && e.sampleCount == (if e.manifest.sampleCount == 0 then |e.manifest.samples| else e.manifest.sampleCount)
    && e.frameCount == (if e.manifest.frameCount == 0 then FrameSum(e.manifest.samples) else e.manifest.frameCount)
    && e.annotationCount == e.manifest.annotationCount
    && (e.hasGroundTruth <==> e.manifest.hasGroundTruth || e.manifest.annotationCount > 0)
    && e.groundTruthSource == e.manifest.groundTruthSource
  }

  lemma {:induction false} EntriesDescribe(refs: seq<SceneRef>, store: SceneStore)
    ensures forall e | e in Entries(refs, store) :: Describes(e, refs, store)
  {
    hide FrameSum;
    if refs != [] {
      var front, last := refs[..|refs| - 1], refs[|refs| - 1];
      EntriesDescribe(front, store);
      assert refs == front + [last];
      forall e | e in Entries(refs, store)
        ensures Describes(e, refs, store)
      {
        if e in Entries(front, store) {
          assert Describes(e, front, store);
          var ref :| ref in front && ref.manifestUri == e.manifestUri;
          assert ref in refs;
        } else {
          assert e == EntryOf(last, store[last.manifestUri]) && last in refs;
        }
      }
    }
  }

  /** Scenes are loaded one by one, each that is stored once, in the order they are
      listed. */
  lemma {:induction false} EntriesConcat(a: seq<SceneRef>, b: seq<SceneRef>, store: SceneStore)
    ensures Entries(a + b, store) == Entries(a, store) + Entries(b, store)
    ensures |b| == 1 ==> |Entries(b, store)| == if b[0].manifestUri in store then 1 else 0
  {
    hide EntryOf;
    if b == [] {
      assert a + b == a;
    } else {
      EntriesConcat(a, b[..|b| - 1], store);
      assert (a + b)[..|a + b| - 1] == a + b[..|b| - 1];
    }
  }

  lemma {:induction false} FrameSumAdds(a: seq<Sample>, b: seq<Sample>)
    ensures FrameSum(a + b) == FrameSum(a) + FrameSum(b)
    ensures |b| == 1 ==> FrameSum(b) == b[0].frames
  {
    if b == [] {
      assert a + b == a;
    } else {
      FrameSumAdds(a, b[..|b| - 1]);
      assert (a + b)[..|a + b| - 1] == a + b[..|b| - 1];
    }
  }

  function SamplesIn(e: Entry): int {
    e.sampleCount
  }

  function FramesIn(e: Entry): int {
    e.frameCount
  }

  function AnnotationsIn(e: Entry): int {
    e.annotationCount
  }

  function WithGroundTruth(entries: seq<Entry>): set<nat> {
    set i: nat | i < |entries| && entries[i].hasGroundTruth
  }

  /** The totals of the index are the sums over its scenes, and the scenes with ground
      truth are counted once each. */
  lemma TotalsAreSums(entries: seq<Entry>)
    ensures
      var index := IndexOf(entries);
      && index.sampleCount == SumBy(entries, SamplesIn)
      && index.frameCount == SumBy(entries, FramesIn)
      && index.annotationCount == SumBy(entries, AnnotationsIn)
      && index.groundTruthSceneCount == |WithGroundTruth(entries)|
  {
    CountsAreSums(entries);
    GroundTruthIsCounted(entries);
  }

  lemma {:induction false} CountsAreSums(entries: seq<Entry>)
    ensures
      var index := IndexOf(entries);
      && index.sampleCount == SumBy(entries, SamplesIn)
      && index.frameCount == SumBy(entries, FramesIn)
      && index.annotationCount == SumBy(entries, AnnotationsIn)
  {
    hide WithSamples, WithScene;
    if entries != [] {
      CountsAreSums(entries[..|entries| - 1]);
    }
  }

  lemma {:induction false} GroundTruthIsCounted(entries: seq<Entry>)
    ensures IndexOf(entries).groundTruthSceneCount == |WithGroundTruth(entries)|
  {
    hide WithSamples, WithScene;
    if entries == [] {
      assert WithGroundTruth(entries) == {};
    } else {
      var last := |entries| - 1;
      GroundTruthIsCounted(entries[..last]);
      assert WithGroundTruth(entries) ==
        WithGroundTruth(entries[..last]) + if entries[last].hasGroundTruth then {last} else {};
    }
  }

  ghost predicate NothingNegative(store: SceneStore) {
    forall uri | uri in store ::
      0 <= store[uri].sampleCount && 0 <= store[uri].frameCount && 0 <= store[uri].annotationCount
  }

  /** What the totals tell of the manifests: none is negative; the scenes that count
      as ground truth are the flagged and the annotated ones; and the annotation total
      misses exactly those that are only flagged. */
  lemma TotalsTell(refs: seq<SceneRef>, store: SceneStore)
    requires NothingNegative(store)
    ensures
      var index := IndexOf(Entries(refs, store));
      && 0 <= index.sampleCount && 0 <= index.frameCount && 0 <= index.annotationCount
      && 0 <= index.groundTruthSceneCount <= |index.scenes|
      && (index.annotationCount == 0 <==> forall e | e in index.scenes :: e.manifest.annotationCount == 0)
      && (index.groundTruthSceneCount == 0 <==>
            forall e | e in index.scenes :: !e.manifest.hasGroundTruth && e.manifest.annotationCount == 0)
      && (index.groundTruthSceneCount == |index.scenes| <==>
            forall e | e in index.scenes :: e.manifest.hasGroundTruth || e.manifest.annotationCount > 0)
      && (index.sampleCount == 0 <==>
            forall e | e in index.scenes :: e.manifest.sampleCount == 0 && e.manifest.samples == [])
  {
    hide IndexOf, Entries, Counted;
    EntriesAreCounted(refs, store);
    IndexLockstep(Entries(refs, store));
    SumsTell(Entries(refs, store));
    AnnotationsTell(Entries(refs, store));
    GroundTruthTells(Entries(refs, store));
    CountedMeans(Entries(refs, store));
  }

  ghost predicate Counted(e: Entry) {
    && 0 <= e.sampleCount && 0 <= e.frameCount && 0 <= e.annotationCount
    && e.annotationCount == e.manifest.annotationCount
    && (e.sampleCount == 0 <==> e.manifest.sampleCount == 0 && e.manifest.samples == [])
    && (e.hasGroundTruth <==> e.manifest.hasGroundTruth || e.manifest.annotationCount > 0)
  }

  lemma CountedMeans(entries: seq<Entry>)
    requires forall e | e in entries :: Counted(e)
    ensures forall e | e in entries ::
      && 0 <= e.annotationCount
      && e.annotationCount == e.manifest.annotationCount
      && (e.sampleCount == 0 <==> e.manifest.sampleCount == 0 && e.manifest.samples == [])
      && (e.hasGroundTruth <==> e.manifest.hasGroundTruth || e.manifest.annotationCount > 0)
  {
  }

  lemma {:induction false} EntriesAreCounted(refs: seq<SceneRef>, store: SceneStore)
    requires NothingNegative(store)
    ensures forall e | e in Entries(refs, store) :: Counted(e)
  {
    hide FrameSum;
    if refs != [] {
      EntriesAreCounted(refs[..|refs| - 1], store);
    }
  }

  lemma {:induction false} SumsTell(entries: seq<Entry>)
    requires forall e | e in entries :: Counted(e)
    ensures 0 <= IndexOf(entries).sampleCount && 0 <= IndexOf(entries).frameCount
    ensures IndexOf(entries).sampleCount == 0 <==> forall e | e in entries :: e.sampleCount == 0
  {
    if entries != [] {
      var front, last := entries[..|entries| - 1], entries[|entries| - 1];
      assert entries == front + [last] && Counted(last);
      SumsTell(front);
    }
  }

  lemma {:induction false} AnnotationsTell(entries: seq<Entry>)
    requires forall e | e in entries :: Counted(e)
    ensures 0 <= IndexOf(entries).annotationCount
    ensures IndexOf(entries).annotationCount == 0 <==> forall e | e in entries :: e.annotationCount == 0
  {
    if entries != [] {
      var front, last := entries[..|entries| - 1], entries[|entries| - 1];
      assert entries == front + [last] && Counted(last);
      AnnotationsTell(front);
    }
  }

  lemma {:induction false} GroundTruthTells(entries: seq<Entry>)
    ensures 0 <= IndexOf(entries).groundTruthSceneCount <= |entries|
    ensures IndexOf(entries).groundTruthSceneCount == 0 <==> forall e | e in entries :: !e.hasGroundTruth
    ensures IndexOf(entries).groundTruthSceneCount == |entries| <==> forall e | e in entries :: e.hasGroundTruth
  {
    if entries != [] {
      var front, last := entries[..|entries| - 1], entries[|entries| - 1];
      assert entries == front + [last];
      GroundTruthTells(front);
    }
  }

  /** The indexed total is the sum over the loaded scenes, so with counts that are
      not negative one annotated scene is enough to make it positive. */
  lemma {:induction false} AnnotatedSceneCounts(entries: seq<Entry>, e: Entry)
    requires e in entries && forall x | x in entries :: 0 <= x.annotationCount
    ensures e.annotationCount <= IndexOf(entries).annotationCount
  {
    var front, last := entries[..|entries| - 1], entries[|entries| - 1];
    assert forall x | x in front :: x in entries;
    assert last in entries;
    if e in front {
      AnnotatedSceneCounts(front, e);
    } else {
      NonNegativeTotal(front);
    }
  }

  lemma {:induction false} NonNegativeTotal(entries: seq<Entry>)
    requires forall x | x in entries :: 0 <= x.annotationCount
    ensures 0 <= IndexOf(entries).annotationCount
  {
    if entries != [] {
      assert entries[|entries| - 1] in entries;
      NonNegativeTotal(entries[..|entries| - 1]);
    }
  }
}
