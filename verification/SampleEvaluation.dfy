/** Evaluation of one sample: filtering, greedy matching, class metrics and the
    sample report. */
module SampleEvaluation {
  import opened Prelude
  import opened Numerics
  import opened GreedyMatching
  import opened CategoryIndependence
  import opened ClassStats
  import opened Ordering

  predicate IsEvaluable(p: Prediction) {
    p.liftingStatus != Some("failed")
  }

  function Evaluable(predictions: seq<Prediction>): seq<Prediction> {
    if predictions == [] then []
    else
      var last := predictions[|predictions| - 1];
      Evaluable(predictions[..|predictions| - 1]) + if IsEvaluable(last) then [last] else []
  }

  predicate IsSupported(a: Annotation) {
    && a.category.Some?
    && ("vehicle.car" <= a.category.value
        || "human.pedestrian" <= a.category.value
        || "movable_object.barrier" <= a.category.value)
  }

  function Supported(annotations: seq<Annotation>): (kept: seq<Annotation>)
    ensures forall a :: a in kept <==> a in annotations && IsSupported(a)
  {
    if annotations == [] then []
    else
      var front, last := annotations[..|annotations| - 1], annotations[|annotations| - 1];
      assert annotations == front + [last];
      if IsSupported(last) then Supported(front) + [last] else Supported(front)
  }

  /** Filtering keeps order and repetition: it is done piece by piece. */
  lemma {:induction false} SupportedConcat(a: seq<Annotation>, b: seq<Annotation>)
    ensures Supported(a + b) == Supported(a) + Supported(b)
  {
    if b == [] {
      assert a + b == a;
    } else {
      SupportedConcat(a, b[..|b| - 1]);
      assert (a + b)[..|a + b| - 1] == a + b[..|b| - 1];
    }
  }

  // ---- class metrics ----

  type Stats = map<string, Counts>

  predicate HasLabel(a: Annotation) {
    a.category.Some? && a.category.value != ""
  }

  function MatchLabels(records: seq<MatchRecord>): multiset<string> {
    if records == [] then multiset{}
    else MatchLabels(records[..|records| - 1]) + multiset{records[|records| - 1].category}
  }

  /** The categories of the predictions outside `matched`, with repetition. */
  function PredLabels(preds: seq<Prediction>, matched: set<nat>): multiset<string> {
    if preds == [] then multiset{}
    else
      var last := |preds| - 1;
      PredLabels(preds[..last], matched) + if last in matched then multiset{} else multiset{preds[last].category}
  }

  /** The labels of the ground truths outside `matched`, with repetition. */
  function GtLabels(gts: seq<Annotation>, matched: set<nat>): multiset<string> {
    if gts == [] then multiset{}
    else
      var last := |gts| - 1;
      GtLabels(gts[..last], matched)
      + if last in matched || !HasLabel(gts[last]) then multiset{} else multiset{gts[last].category.value}
  }

  function Categories(gts: seq<Annotation>, preds: seq<Prediction>): set<string> {
    (set c | c in GtLabels(gts, {})) + (set c | c in PredLabels(preds, {}))
  }

  function ClassMetrics(gts: seq<Annotation>, preds: seq<Prediction>, records: seq<MatchRecord>,
                        gtIndices: set<nat>, predIndices: set<nat>): Stats {
    Tabulate(Categories(gts, preds), MatchLabels(records), PredLabels(preds, predIndices), GtLabels(gts, gtIndices))
  }

  lemma {:induction false} LabelMembers(gts: seq<Annotation>, preds: seq<Prediction>)
    ensures forall i | 0 <= i < |preds| :: preds[i].category in PredLabels(preds, {})
    ensures forall g | 0 <= g < |gts| && HasLabel(gts[g]) :: gts[g].category.value in GtLabels(gts, {})
    decreases |gts| + |preds|
  {
    if gts != [] {
      LabelMembers(gts[..|gts| - 1], preds);
    } else if preds != [] {
      LabelMembers(gts, preds[..|preds| - 1]);
    }
  }

  method BuildSampleClassMetrics(gts: seq<Annotation>, preds: seq<Prediction>, records: seq<MatchRecord>,
                                 gtIndices: set<nat>, predIndices: set<nat>)
    returns (metrics: Stats)
    requires forall r | r in records :: r.category in Categories(gts, preds)
    ensures metrics == ClassMetrics(gts, preds, records, gtIndices, predIndices)
  {
    var categories := Categories(gts, preds);
    metrics := map c | c in categories :: Zero();
    metrics := CountHits(categories, records, metrics);
    assert forall i | 0 <= i < |preds| :: preds[i].category in categories by {
      LabelMembers(gts, preds);
    }
    metrics := CountFalsePositives(categories, preds, predIndices, MatchLabels(records), metrics);
    assert forall g | 0 <= g < |gts| && HasLabel(gts[g]) :: gts[g].category.value in categories by {
      LabelMembers(gts, preds);
    }
    metrics := CountMisses(categories, gts, gtIndices, MatchLabels(records), PredLabels(preds, predIndices), metrics);
  }

  method CountHits(categories: set<string>, records: seq<MatchRecord>, start: Stats) returns (metrics: Stats)
    requires start == Tabulate(categories, multiset{}, multiset{}, multiset{})
    requires forall r | r in records :: r.category in categories
    ensures metrics == Tabulate(categories, MatchLabels(records), multiset{}, multiset{})
  {
    hide ClassStats.Tabulate;
    metrics := start;
    for i := 0 to |records|
      invariant metrics == Tabulate(categories, MatchLabels(records[..i]), multiset{}, multiset{})
    {
      var c := records[i].category;
      assert records[i] in records;
      MatchLabelsSnoc(records, i);
      BumpTp(categories, MatchLabels(records[..i]), multiset{}, multiset{}, c);
      metrics := metrics[c := metrics[c].(tp := metrics[c].tp + 1)];
    }
    assert records[..|records|] == records;
  }

  method CountFalsePositives(categories: set<string>, preds: seq<Prediction>, predIndices: set<nat>,
                             ghost tp: multiset<string>, start: Stats)
    returns (metrics: Stats)
    requires start == Tabulate(categories, tp, multiset{}, multiset{})
    requires forall i | 0 <= i < |preds| :: preds[i].category in categories
    ensures metrics == Tabulate(categories, tp, PredLabels(preds, predIndices), multiset{})
  {
    hide ClassStats.Tabulate;
    metrics := start;
    for i := 0 to |preds|
      invariant metrics == Tabulate(categories, tp, PredLabels(preds[..i], predIndices), multiset{})
    {
      PredLabelsSnoc(preds, i, predIndices);
      if i !in predIndices {
        var c := preds[i].category;
        BumpFp(categories, tp, PredLabels(preds[..i], predIndices), multiset{}, c);
        metrics := metrics[c := metrics[c].(fp := metrics[c].fp + 1)];
      }
    }
    assert preds[..|preds|] == preds;
  }

  method CountMisses(categories: set<string>, gts: seq<Annotation>, gtIndices: set<nat>,
                     ghost tp: multiset<string>, ghost fp: multiset<string>, start: Stats)
    returns (metrics: Stats)
    requires start == Tabulate(categories, tp, fp, multiset{})
    requires forall g | 0 <= g < |gts| && HasLabel(gts[g]) :: gts[g].category.value in categories
    ensures metrics == Tabulate(categories, tp, fp, GtLabels(gts, gtIndices))
  {
    hide ClassStats.Tabulate;
    metrics := start;
    for i := 0 to |gts|
      invariant metrics == Tabulate(categories, tp, fp, GtLabels(gts[..i], gtIndices))
    {
      GtLabelsSnoc(gts, i, gtIndices);
      if i !in gtIndices && HasLabel(gts[i]) {
        var c := gts[i].category.value;
        BumpFn(categories, tp, fp, GtLabels(gts[..i], gtIndices), c);
        metrics := metrics[c := metrics[c].(fn := metrics[c].fn + 1)];
      }
    }
    assert gts[..|gts|] == gts;
  }

  lemma MatchLabelsSnoc(records: seq<MatchRecord>, i: nat)
    requires i < |records|
    ensures MatchLabels(records[..i + 1]) == MatchLabels(records[..i]) + multiset{records[i].category}
  {
    assert records[..i + 1][..i] == records[..i];
  }

  lemma PredLabelsSnoc(preds: seq<Prediction>, i: nat, matched: set<nat>)
    requires i < |preds|
    ensures
      PredLabels(preds[..i + 1], matched) ==
        if i in matched then PredLabels(preds[..i], matched)
        else PredLabels(preds[..i], matched) + multiset{preds[i].category}
  {
    assert preds[..i + 1][..i] == preds[..i];
  }

  lemma GtLabelsSnoc(gts: seq<Annotation>, i: nat, matched: set<nat>)
    requires i < |gts|
    ensures
      GtLabels(gts[..i + 1], matched) ==
        if i in matched || !HasLabel(gts[i]) then GtLabels(gts[..i], matched)
        else GtLabels(gts[..i], matched) + multiset{gts[i].category.value}
  {
    assert gts[..i + 1][..i] == gts[..i];
  }

  // ---- the report ----

  datatype SampleEval = SampleEval(
    tp: int, fp: int, fn: int, matchedCount: int,
    totalError: real, meanError: real, precision: real, recall: real,
    matches: seq<MatchRecord>, classMetrics: Stats,
    predictionCount: int, evaluableCount: int, liftingFailedCount: int)

  function ErrorSum(records: seq<MatchRecord>): real {
    if records == [] then 0.0
    else ErrorSum(records[..|records| - 1]) + records[|records| - 1].centerDistance
  }

  function Ratio(part: int, rest: int): real {
    Round6(SafeDiv(part as real, (part + rest) as real))
  }

  function Report(m: Matcher, predictions: seq<Prediction>): SampleEval {
    var preds := Evaluable(predictions);
    var o, records := m.Greedy(preds), MatchRecords(m, preds);
    var tp := |records|;
    var fp, fn := |preds| - |o.predIndices|, |m.gts| - |o.gtIndices|;
    var error := ErrorSum(records);
    SampleEval(
      tp, fp, fn, tp,
      Round6(error), Round6(SafeDiv(error, tp as real)), Ratio(tp, fp), Ratio(tp, fn),
      records, ClassMetrics(m.gts, preds, records, o.gtIndices, o.predIndices),
      |predictions|, |preds|, |predictions| - |preds|)
  }

  function SampleMatcher(annotations: seq<Annotation>, dist: (Point, Point) -> real, limit: real): Matcher {
    Matcher(Supported(annotations), dist, limit)
  }

  method EvaluateSample(annotations: seq<Annotation>, predictions: seq<Prediction>,
                        dist: (Point, Point) -> real, limit: real)
    returns (report: SampleEval)
    ensures report == Report(SampleMatcher(annotations, dist, limit), predictions)
  {
    hide Categories, ClassMetrics, Ratio, GreedyMatching.Matcher.Greedy, MatchRecords, Numerics.SafeDiv,
      Numerics.Round6, Supported, Evaluable, ErrorSum, PredLabels, GtLabels, MatchLabels;
    var gts := Supported(annotations);
    var preds := Evaluable(predictions);
    var failed := |predictions| - |preds|;

    var gtIndices, predIndices, records := MatchPredictions(gts, preds, dist, limit);

    var tp := |records|;
    var fp := |preds| - |predIndices|;
    var fn := |gts| - |gtIndices|;
    var error := SumErrors(records);
    assert forall r | r in records :: r.category in Categories(gts, preds) by {
      RecordsAreLabelled(Matcher(gts, dist, limit), preds);
    }
    var classMetrics := BuildSampleClassMetrics(gts, preds, records, gtIndices, predIndices);
    report := SampleEval(
      tp, fp, fn, tp,
      Round6(error), Round6(SafeDiv(error, tp as real)), Ratio(tp, fp), Ratio(tp, fn),
      records, classMetrics, |predictions|, |preds|, failed);
  }

  /** The two nested loops of the evaluator. */
  method MatchPredictions(gts: seq<Annotation>, preds: seq<Prediction>, dist: (Point, Point) -> real, limit: real)
    returns (gtIndices: set<nat>, predIndices: set<nat>, records: seq<MatchRecord>)
    ensures
      var m := Matcher(gts, dist, limit);
      && gtIndices == m.Greedy(preds).gtIndices
      && predIndices == m.Greedy(preds).predIndices
      && records == MatchRecords(m, preds)
  {
    hide Numerics.Round6, GreedyMatching.Matcher.Greedy, GreedyMatching.Matcher.Nearest, MatchRecords;
    ghost var m := Matcher(gts, dist, limit);
    NothingMatched(m, preds);
    gtIndices, predIndices, records := {}, {}, [];
    for i := 0 to |preds|
      invariant gtIndices == m.Greedy(preds[..i]).gtIndices
      invariant predIndices == m.Greedy(preds[..i]).predIndices
      invariant records == MatchRecords(m, preds[..i])
    {
      var p := preds[i];
      var best, bestDistance := FindNearest(gts, p, dist, limit, gtIndices);
      MatchStep(m, preds, i);
      if best.Some? && bestDistance <= limit {
        gtIndices := gtIndices + {best.value};
        predIndices := predIndices + {i};
        var record :=
          MatchRecord(gts[best.value].annotationId, p.predictionId, p.category, Round6(bestDistance));
        records := records + [record];
      }
    }
    assert preds[..|preds|] == preds;
  }

  lemma NothingMatched(m: Matcher, preds: seq<Prediction>)
    ensures m.Greedy(preds[..0]) == Outcome({}, {}, []) && MatchRecords(m, preds[..0]) == []
  {
  }

  /** What the prediction at `i` adds to the sets and to the records. */
  lemma MatchStep(m: Matcher, preds: seq<Prediction>, i: nat)
    requires i < |preds|
    ensures
      var before, after := m.Greedy(preds[..i]), m.Greedy(preds[..i + 1]);
      var best := m.Nearest(preds[i], before.gtIndices, |m.gts|);
      if best.Some? && m.Gap(best.value, preds[i]) <= m.limit then
        && after.gtIndices == before.gtIndices + {best.value}
        && after.predIndices == before.predIndices + {i}
        && MatchRecords(m, preds[..i + 1]) == MatchRecords(m, preds[..i]) + [RecordOf(m, preds[i], best.value)]
      else
        && after.gtIndices == before.gtIndices
        && after.predIndices == before.predIndices
        && MatchRecords(m, preds[..i + 1]) == MatchRecords(m, preds[..i])
  {
    hide Numerics.Round6, GreedyMatching.Matcher.Greedy, GreedyMatching.Matcher.Nearest, MatchRecords;
    assert preds[..i + 1] == preds[..i] + [preds[i]];
    m.GreedySnoc(preds[..i], preds[i]);
    RecordsSnoc(m, preds[..i], preds[i]);
  }

  /** The inner loop: the nearest free ground truth of the prediction's category. */
  method FindNearest(gts: seq<Annotation>, p: Prediction, dist: (Point, Point) -> real, limit: real, taken: set<nat>)
    returns (best: Option<nat>, bestDistance: real)
    ensures
      var m := Matcher(gts, dist, limit);
      && best == m.Nearest(p, taken, |gts|)
      && (best.Some? ==> bestDistance == m.Gap(best.value, p))
  {
    ghost var m := Matcher(gts, dist, limit);
    best, bestDistance := None, 0.0;
    for g := 0 to |gts|
      invariant best == m.Nearest(p, taken, g)
      invariant best.Some? ==> bestDistance == m.Gap(best.value, p)
    {
      if g !in taken && gts[g].category == Some(p.category) {
        var distance := dist(gts[g].translation, p.translation);
        if best.None? || distance < bestDistance {
          best, bestDistance := Some(g), distance;
        }
      }
    }
  }

  method SumErrors(records: seq<MatchRecord>) returns (error: real)
    ensures error == ErrorSum(records)
  {
    error := 0.0;
    for i := 0 to |records|
      invariant error == ErrorSum(records[..i])
    {
      assert records[..i + 1][..i] == records[..i];
      error := error + records[i].centerDistance;
    }
    assert records[..|records|] == records;
  }

  lemma RecordsAreLabelled(m: Matcher, preds: seq<Prediction>)
    ensures forall r | r in MatchRecords(m, preds) :: r.category in Categories(m.gts, preds)
  {
    RecordsDescribeMatches(m, preds);
    LabelMembers(m.gts, preds);
    var matches, records := m.Greedy(preds).matches, MatchRecords(m, preds);
    forall k | 0 <= k < |records| ensures records[k].category in Categories(m.gts, preds) {
      assert m.Compatible(matches[k], preds);
    }
  }

  // ---- what the report means ----

  lemma {:induction false} LabelsBeyond(preds: seq<Prediction>, matched: set<nat>, extra: nat)
    requires extra >= |preds|
    ensures PredLabels(preds, matched + {extra}) == PredLabels(preds, matched)
  {
    if preds != [] {
      LabelsBeyond(preds[..|preds| - 1], matched, extra);
    }
  }

  lemma {:induction false} ClaimGroundTruth(gts: seq<Annotation>, matched: set<nat>, g: nat)
    requires g < |gts| && g !in matched && HasLabel(gts[g])
    ensures GtLabels(gts, matched + {g}) + multiset{gts[g].category.value} == GtLabels(gts, matched)
  {
    var last := |gts| - 1;
    if g < last {
      ClaimGroundTruth(gts[..last], matched, g);
      Reassociate(GtLabels(gts[..last], matched + {g}), gts[g].category.value, GtLabels(gts[..last], matched));
    } else {
      GtLabelsBeyond(gts[..last], matched, g);
    }
  }

  lemma Reassociate<K>(less: multiset<K>, k: K, more: multiset<K>)
    requires less + multiset{k} == more
    ensures forall extra: multiset<K> :: less + extra + multiset{k} == more + extra
  {
  }

  lemma {:induction false} GtLabelsBeyond(gts: seq<Annotation>, matched: set<nat>, extra: nat)
    requires extra >= |gts|
    ensures GtLabels(gts, matched + {extra}) == GtLabels(gts, matched)
  {
    if gts != [] {
      GtLabelsBeyond(gts[..|gts| - 1], matched, extra);
    }
  }

  /** Matched and unmatched labels together are all the labels, on either side. */
  ghost predicate Balanced(m: Matcher, preds: seq<Prediction>) {
    var o, hits := m.Greedy(preds), MatchLabels(MatchRecords(m, preds));
    && hits + PredLabels(preds, o.predIndices) == PredLabels(preds, {})
    && hits + GtLabels(m.gts, o.gtIndices) == GtLabels(m.gts, {})
  }

  lemma {:induction false} LabelsBalance(m: Matcher, preds: seq<Prediction>)
    requires forall a | a in m.gts :: IsSupported(a)
    ensures Balanced(m, preds)
  {
    hide IsSupported, Balanced;
    if preds == [] {
      BalanceEmpty(m);
    } else {
      var front, p := preds[..|preds| - 1], preds[|preds| - 1];
      LabelsBalance(m, front);
      assert front + [p] == preds;
      BalanceSnoc(m, front, p);
    }
  }

  lemma BalanceEmpty(m: Matcher)
    ensures Balanced(m, [])
  {
    assert m.Greedy([]).gtIndices == {};
  }

  lemma PredLabelsAppend(front: seq<Prediction>, p: Prediction, matched: set<nat>)
    ensures
      PredLabels(front + [p], matched) ==
        PredLabels(front, matched) + if |front| in matched then multiset{} else multiset{p.category}
  {
    assert (front + [p])[..|front|] == front;
  }

  lemma MatchLabelsAppend(records: seq<MatchRecord>, r: MatchRecord)
    ensures MatchLabels(records + [r]) == MatchLabels(records) + multiset{r.category}
  {
    assert (records + [r])[..|records|] == records;
  }

  lemma MoveOne<K>(hits: multiset<K>, k: K, rest: multiset<K>, all: multiset<K>)
    requires hits + (rest + multiset{k}) == all
    ensures (hits + multiset{k}) + rest == all
  {
  }

  lemma AddOne<K>(hits: multiset<K>, k: K, rest: multiset<K>, all: multiset<K>)
    requires hits + rest == all
    ensures (hits + multiset{k}) + rest == all + multiset{k}
    ensures hits + (rest + multiset{k}) == all + multiset{k}
  {
  }

  lemma BalanceSnoc(m: Matcher, front: seq<Prediction>, p: Prediction)
    requires forall a | a in m.gts :: IsSupported(a)
    requires Balanced(m, front)
    ensures Balanced(m, front + [p])
  {
    hide IsSupported, MatchLabels, PredLabels, GtLabels;
    var o := m.Greedy(front);
    var hits := MatchLabels(MatchRecords(m, front));
    m.GreedySnoc(front, p);
    RecordsSnoc(m, front, p);
    PredIndicesInRange(m, front);
    PredLabelsAppend(front, p, {});
    AddOne(hits, p.category, PredLabels(front, o.predIndices), PredLabels(front, {}));
    var choice := m.Choice(p, o.gtIndices);
    if choice.None? {
      PredLabelsAppend(front, p, o.predIndices);
    } else {
      var g := choice.value;
      PredLabelsAppend(front, p, o.predIndices + {|front|});
      LabelsBeyond(front, o.predIndices, |front|);
      MatchLabelsAppend(MatchRecords(m, front), RecordOf(m, p, g));
      SupportedHasLabel(m.gts, g);
      ClaimGroundTruth(m.gts, o.gtIndices, g);
      MoveOne(hits, p.category, GtLabels(m.gts, o.gtIndices + {g}), GtLabels(m.gts, {}));
    }
  }

  lemma SupportedHasLabel(gts: seq<Annotation>, g: nat)
    requires g < |gts| && forall a | a in gts :: IsSupported(a)
    ensures HasLabel(gts[g])
  {
    assert gts[g] in gts;
  }

  lemma {:induction false} PredIndicesInRange(m: Matcher, preds: seq<Prediction>)
    ensures forall i | i in m.Greedy(preds).predIndices :: i < |preds|
  {
    if preds != [] {
      PredIndicesInRange(m, preds[..|preds| - 1]);
    }
  }

  // ---- labels, counted by position ----

  function PredsOfClass(preds: seq<Prediction>, c: string): set<nat> {
    Where(preds, (p: Prediction) => p.category == c)
  }

  function GtsOfClass(gts: seq<Annotation>, c: string): set<nat> {
    Where(gts, (a: Annotation) => a.category == Some(c))
  }

  function MatchesOfClass(records: seq<MatchRecord>, c: string): set<nat> {
    Where(records, (r: MatchRecord) => r.category == c)
  }

  lemma PredsOfClassLast(preds: seq<Prediction>, c: string)
    ensures preds == [] ==> PredsOfClass(preds, c) == {}
    ensures preds != [] ==>
      var last := |preds| - 1;
      |PredsOfClass(preds, c)| == |PredsOfClass(preds[..last], c)| + if preds[last].category == c then 1 else 0
  {
    WhereLast(preds, (p: Prediction) => p.category == c);
  }

  lemma GtsOfClassLast(gts: seq<Annotation>, c: string)
    ensures gts == [] ==> GtsOfClass(gts, c) == {}
    ensures gts != [] ==>
      var last := |gts| - 1;
      |GtsOfClass(gts, c)| == |GtsOfClass(gts[..last], c)| + if gts[last].category == Some(c) then 1 else 0
  {
    WhereLast(gts, (a: Annotation) => a.category == Some(c));
  }

  lemma MatchesOfClassLast(records: seq<MatchRecord>, c: string)
    ensures records == [] ==> MatchesOfClass(records, c) == {}
    ensures records != [] ==>
      var last := |records| - 1;
      |MatchesOfClass(records, c)| ==
        |MatchesOfClass(records[..last], c)| + if records[last].category == c then 1 else 0
  {
    WhereLast(records, (r: MatchRecord) => r.category == c);
  }

  lemma {:induction false} PredLabelCount(preds: seq<Prediction>, c: string)
    ensures PredLabels(preds, {})[c] == |PredsOfClass(preds, c)|
  {
    hide PredsOfClass;
    PredsOfClassLast(preds, c);
    if preds != [] {
      PredLabelCount(preds[..|preds| - 1], c);
    }
  }

  lemma {:induction false} GtLabelCount(gts: seq<Annotation>, c: string)
    ensures c != "" ==> GtLabels(gts, {})[c] == |GtsOfClass(gts, c)|
    ensures GtLabels(gts, {})[""] == 0
  {
    hide GtsOfClass;
    GtsOfClassLast(gts, c);
    if gts != [] {
      GtLabelCount(gts[..|gts| - 1], c);
    }
  }

  lemma {:induction false} MatchLabelCount(records: seq<MatchRecord>, c: string)
    ensures MatchLabels(records)[c] == |MatchesOfClass(records, c)|
  {
    hide MatchesOfClass;
    MatchesOfClassLast(records, c);
    if records != [] {
      MatchLabelCount(records[..|records| - 1], c);
    }
  }

  lemma NoClassIsEmpty(gts: seq<Annotation>, preds: seq<Prediction>, c: string)
    requires forall a | a in gts :: IsSupported(a)
    ensures c in Categories(gts, preds) <==> PredsOfClass(preds, c) != {} || GtsOfClass(gts, c) != {}
    ensures GtLabels(gts, {})[c] == |GtsOfClass(gts, c)|
  {
    hide PredLabels, GtLabels;
    PredLabelCount(preds, c);
    GtLabelCount(gts, c);
    forall g: nat | g < |gts|
      ensures gts[g].category != Some("")
    {
      SupportedHasLabel(gts, g);
    }
    assert c == "" ==> GtsOfClass(gts, c) == {};
  }

  /** Class accounting is exact, by position: a report has the categories that occur in
      the sample; in each one the hits are its matches, the hits and the false positives
      its evaluable predictions, the hits and the misses its supported ground truths. */
  lemma ClassAccounting(m: Matcher, predictions: seq<Prediction>)
    requires forall a | a in m.gts :: IsSupported(a)
    ensures
      var e, preds := Report(m, predictions), Evaluable(predictions);
      && (forall c :: c in e.classMetrics <==> PredsOfClass(preds, c) != {} || GtsOfClass(m.gts, c) != {})
      && forall c | c in e.classMetrics ::
           && e.classMetrics[c].tp == |MatchesOfClass(e.matches, c)|
           && e.classMetrics[c].tp + e.classMetrics[c].fp == |PredsOfClass(preds, c)|
           && e.classMetrics[c].tp + e.classMetrics[c].fn == |GtsOfClass(m.gts, c)|
  {
    hide IsSupported, PredLabels, GtLabels, MatchLabels, Balanced, Numerics.SafeDiv, Categories, MatchRecords,
      PredsOfClass, GtsOfClass, MatchesOfClass, Evaluable, ErrorSum, Ratio, Numerics.Round6;
    hide GreedyMatching.Matcher.Greedy;
    var preds := Evaluable(predictions);
    LabelsBalance(m, preds);
    BalancedMembers(m, preds);
    forall c: string
      ensures c in Categories(m.gts, preds) <==> PredsOfClass(preds, c) != {} || GtsOfClass(m.gts, c) != {}
      ensures GtLabels(m.gts, {})[c] == |GtsOfClass(m.gts, c)|
      ensures PredLabels(preds, {})[c] == |PredsOfClass(preds, c)|
      ensures MatchLabels(MatchRecords(m, preds))[c] == |MatchesOfClass(MatchRecords(m, preds), c)|
    {
      NoClassIsEmpty(m.gts, preds, c);
      PredLabelCount(preds, c);
      MatchLabelCount(MatchRecords(m, preds), c);
    }
  }

  /** The class sums are the sample totals, none of them negative. */
  lemma ClassSums(m: Matcher, predictions: seq<Prediction>)
    requires forall a | a in m.gts :: IsSupported(a)
    ensures
      var e := Report(m, predictions);
      0 <= e.tp && 0 <= e.fp && 0 <= e.fn && Sum(e.classMetrics) == Counts(e.tp, e.fp, e.fn)
  {
    hide IsSupported, PredLabels, GtLabels, MatchLabels, Balanced, Numerics.SafeDiv, Categories, MatchRecords;
    var preds := Evaluable(predictions);
    var o, hits := m.Greedy(preds), MatchLabels(MatchRecords(m, preds));
    LabelsBalance(m, preds);
    LabelSizes(m, preds);
    BalancedMembers(m, preds);
    var metrics := Report(m, predictions).classMetrics;
    assert metrics ==
      Tabulate(Categories(m.gts, preds), hits, PredLabels(preds, o.predIndices), GtLabels(m.gts, o.gtIndices));
    assert metrics.Keys == Categories(m.gts, preds);
    TotalOfTable(metrics.Keys, hits, PredLabels(preds, o.predIndices), GtLabels(m.gts, o.gtIndices), metrics);
    m.GreedyIsMatching(preds);
  }

  lemma BalancedMembers(m: Matcher, preds: seq<Prediction>)
    requires Balanced(m, preds)
    ensures
      var o, hits := m.Greedy(preds), MatchLabels(MatchRecords(m, preds));
      && (forall c :: hits[c] + PredLabels(preds, o.predIndices)[c] == PredLabels(preds, {})[c])
      && (forall c :: hits[c] + GtLabels(m.gts, o.gtIndices)[c] == GtLabels(m.gts, {})[c])
      && (forall c | c in hits || c in PredLabels(preds, o.predIndices) || c in GtLabels(m.gts, o.gtIndices) ::
            c in Categories(m.gts, preds))
  {
    hide PredLabels, GtLabels, MatchLabels;
    var o, hits := m.Greedy(preds), MatchLabels(MatchRecords(m, preds));
    SumMembers(hits, PredLabels(preds, o.predIndices), PredLabels(preds, {}));
    SumMembers(hits, GtLabels(m.gts, o.gtIndices), GtLabels(m.gts, {}));
  }

  lemma SumMembers<K>(a: multiset<K>, b: multiset<K>, all: multiset<K>)
    requires a + b == all
    ensures forall c :: a[c] + b[c] == all[c]
    ensures forall c | c in a || c in b :: c in all
  {
    assert forall c :: (a + b)[c] == a[c] + b[c];
  }

  lemma {:induction false} AllLabels(gts: seq<Annotation>, preds: seq<Prediction>)
    requires forall a | a in gts :: IsSupported(a)
    ensures |PredLabels(preds, {})| == |preds|
    ensures |GtLabels(gts, {})| == |gts|
    decreases |gts| + |preds|
  {
    if gts != [] {
      assert gts[|gts| - 1] in gts;
      AllLabels(gts[..|gts| - 1], preds);
    } else if preds != [] {
      AllLabels(gts, preds[..|preds| - 1]);
    }
  }

  lemma {:induction false} MatchLabelsSize(records: seq<MatchRecord>)
    ensures |MatchLabels(records)| == |records|
  {
    if records != [] {
      MatchLabelsSize(records[..|records| - 1]);
    }
  }

  lemma LabelSizes(m: Matcher, preds: seq<Prediction>)
    requires forall a | a in m.gts :: IsSupported(a)
    ensures
      var o, records := m.Greedy(preds), MatchRecords(m, preds);
      && |MatchLabels(records)| == |records|
      && |PredLabels(preds, o.predIndices)| == |preds| - |o.predIndices|
      && |GtLabels(m.gts, o.gtIndices)| == |m.gts| - |o.gtIndices|
  {
    LabelsBalance(m, preds);
    AllLabels(m.gts, preds);
    MatchLabelsSize(MatchRecords(m, preds));
    m.GreedyIsMatching(preds);
    RecordsDescribeMatches(m, preds);
  }

  /** Every prediction of the sample is a hit, a false positive or a failed lift. */
  lemma PredictionsConserved(m: Matcher, predictions: seq<Prediction>)
    ensures
      var e := Report(m, predictions);
      && e.tp + e.fp + e.liftingFailedCount == e.predictionCount == |predictions|
      && e.tp + e.fp == e.evaluableCount
      && e.tp + e.fn == |m.gts|
      && e.tp == e.matchedCount == |e.matches|
      && 0 <= e.tp && 0 <= e.fp && 0 <= e.fn && 0 <= e.liftingFailedCount
      && Describes(m, Evaluable(predictions), m.Greedy(Evaluable(predictions)).matches, e.matches)
  {
    hide Ratio, ClassMetrics, ErrorSum, Numerics.SafeDiv, Numerics.Round6, Evaluable;
    m.GreedyIsMatching(Evaluable(predictions));
    RecordsDescribeMatches(m, Evaluable(predictions));
    EvaluableIsShorter(predictions);
    HitCounts(m, Evaluable(predictions));
    ReportCounts(m, predictions);
    HitsArePredictions(m, Evaluable(predictions));
  }

  lemma HitsArePredictions(m: Matcher, preds: seq<Prediction>)
    ensures |m.Greedy(preds).predIndices| <= |preds|
  {
    PredIndicesInRange(m, preds);
    InitialSegment(m.Greedy(preds).predIndices, |preds|);
  }

  function FailedLifts(predictions: seq<Prediction>): set<nat> {
    set i: nat | i < |predictions| && predictions[i].liftingStatus == Some("failed")
  }

  /** The failed lifts are counted by their recorded status, and they are all that
      evaluation leaves out. */
  lemma FailedLiftsAreCounted(m: Matcher, predictions: seq<Prediction>)
    ensures Report(m, predictions).liftingFailedCount == |FailedLifts(predictions)|
    ensures forall p ::
      p in Evaluable(predictions) <==> p in predictions && p.liftingStatus != Some("failed")
  {
    hide Ratio, ClassMetrics, ErrorSum, Numerics.SafeDiv, Numerics.Round6, Evaluable, MatchRecords;
    hide GreedyMatching.Matcher.Greedy;
    EvaluableLeavesOut(predictions);
    EvaluableMembers(predictions);
  }

  lemma {:induction false} EvaluableMembers(predictions: seq<Prediction>)
    ensures forall p ::
      p in Evaluable(predictions) <==> p in predictions && p.liftingStatus != Some("failed")
  {
    if predictions != [] {
      var front, last := predictions[..|predictions| - 1], predictions[|predictions| - 1];
      EvaluableMembers(front);
      assert predictions == front + [last];
    }
  }

  lemma {:induction false} EvaluableLeavesOut(predictions: seq<Prediction>)
    ensures |Evaluable(predictions)| + |FailedLifts(predictions)| == |predictions|
  {
    if predictions == [] {
      assert FailedLifts(predictions) == {};
    } else {
      var last := |predictions| - 1;
      EvaluableLeavesOut(predictions[..last]);
      assert FailedLifts(predictions) ==
        FailedLifts(predictions[..last]) + if IsEvaluable(predictions[last]) then {} else {last};
    }
  }

  /** An annotation counts exactly when its category continues one of three names. */
  lemma SupportedIff(a: Annotation)
    ensures IsSupported(a) <==>
      exists rest: string ::
        || a.category == Some("vehicle.car" + rest)
        || a.category == Some("human.pedestrian" + rest)
        || a.category == Some("movable_object.barrier" + rest)
  {
    if IsSupported(a) {
      var c := a.category.value;
      if "vehicle.car" <= c {
        assert c == "vehicle.car" + c[|"vehicle.car"|..];
      } else if "human.pedestrian" <= c {
        assert c == "human.pedestrian" + c[|"human.pedestrian"|..];
      } else {
        assert c == "movable_object.barrier" + c[|"movable_object.barrier"|..];
      }
    }
  }

  // ---- the ratios of a report ----

  /** A rounded ratio is a share: between nothing and all, exactly so at both ends,
      and within half a millionth of the true one. */
  lemma RatioIsShare(part: nat, rest: nat)
    ensures 0.0 <= Ratio(part, rest) <= 1.0
    ensures part == 0 ==> Ratio(part, rest) == 0.0
    ensures rest == 0 && part > 0 ==> Ratio(part, rest) == 1.0
    ensures part + rest > 0 ==>
      -0.0000005 <= Ratio(part, rest) - part as real / (part + rest) as real <= 0.0000005
  {
    var share := SafeDiv(part as real, (part + rest) as real);
    assert 0.0 <= share <= 1.0 by {
      if part + rest > 0 {
        QuotientOrder(0, 1, part, part + rest);
        QuotientOrder(part, part + rest, 1, 1);
      }
    }
    RoundMonotone(0.0, share);
    RoundMonotone(share, 1.0);
    RoundFixesTicks(0);
    RoundFixesTicks(1000000);
    assert FromTicks(0) == 0.0 && FromTicks(1000000) == 1.0;
    assert part == 0 ==> share == 0.0;
    assert rest == 0 && part > 0 ==> share == 1.0;
    assert Ratio(part, rest) == Round6(share);
  }

  /** The precision and recall that a report states are the shares of its hits among its
      evaluable predictions and among its ground truths. */
  lemma ReportedShares(m: Matcher, predictions: seq<Prediction>)
    ensures
      var e := Report(m, predictions);
      && 0.0 <= e.precision <= 1.0 && 0.0 <= e.recall <= 1.0
      && (e.tp == 0 ==> e.precision == e.recall == 0.0)
      && (e.tp > 0 && e.fp == 0 ==> e.precision == 1.0)
      && (e.tp > 0 && e.fn == 0 ==> e.recall == 1.0)
      && (e.tp + e.fp > 0 ==> -0.0000005 <= e.precision - e.tp as real / (e.tp + e.fp) as real <= 0.0000005)
      && (e.tp + e.fn > 0 ==> -0.0000005 <= e.recall - e.tp as real / (e.tp + e.fn) as real <= 0.0000005)
  {
    hide Ratio, ClassMetrics, ErrorSum, Numerics.SafeDiv, Numerics.Round6, Evaluable, MatchRecords;
    hide GreedyMatching.Matcher.Greedy;
    PredictionsConserved(m, predictions);
    var e := Report(m, predictions);
    RatioIsShare(e.tp, e.fp);
    RatioIsShare(e.tp, e.fn);
  }

  /** The total error is additive over the matches, each counting its own distance. */
  lemma {:induction false} ErrorSumAdds(a: seq<MatchRecord>, b: seq<MatchRecord>)
    ensures ErrorSum(a + b) == ErrorSum(a) + ErrorSum(b)
    ensures |b| == 1 ==> ErrorSum(b) == b[0].centerDistance
  {
    if b == [] {
      assert a + b == a;
    } else {
      var front := b[..|b| - 1];
      ErrorSumAdds(a, front);
      assert (a + b)[..|a + b| - 1] == a + front;
    }
  }

  /** The reported mean is the mean of the reported distances, to half a millionth. */
  lemma MeanErrorIsMean(m: Matcher, predictions: seq<Prediction>)
    ensures
      var e := Report(m, predictions);
      && (e.tp == 0 ==> e.meanError == 0.0)
      && (e.tp > 0 ==>
            -0.0000005 <= e.meanError - ErrorSum(e.matches) / e.tp as real <= 0.0000005)
  {
    hide Ratio, ClassMetrics, ErrorSum, Evaluable, MatchRecords, Numerics.Round6;
    hide GreedyMatching.Matcher.Greedy;
    RoundFixesTicks(0);
    assert FromTicks(0) == 0.0;
  }

  lemma {:induction false} EvaluableIsShorter(predictions: seq<Prediction>)
    ensures |Evaluable(predictions)| <= |predictions|
  {
    if predictions != [] {
      EvaluableIsShorter(predictions[..|predictions| - 1]);
    }
  }

  // ---- distance bounds ----

  /** `n` times `r`, by repeated addition. */
  function Times(n: nat, r: real): real {
    if n == 0 then 0.0 else Times(n - 1, r) + r
  }

  lemma {:induction false} TimesIsProduct(n: nat, r: real)
    ensures Times(n, r) == n as real * r
  {
    if n > 0 {
      TimesIsProduct(n - 1, r);
      assert n as real == (n - 1) as real + 1.0;
      assert n as real * r == (n - 1) as real * r + 1.0 * r;
    }
  }

  /** The summed distance error lies on the six-decimal grid and is at most the
      rounded match distance per match. */
  lemma {:induction false} ErrorSumBound(m: Matcher, preds: seq<Prediction>)
    ensures
      var records := MatchRecords(m, preds);
      && (exists ticks :: ErrorSum(records) == FromTicks(ticks))
      && ErrorSum(records) <= Times(|records|, Round6(m.limit))
  {
    if preds == [] {
      assert ErrorSum([]) == FromTicks(0);
    } else {
      var front, p := preds[..|preds| - 1], preds[|preds| - 1];
      ErrorSumBound(m, front);
      assert front + [p] == preds;
      RecordsSnoc(m, front, p);
      var choice := m.Choice(p, m.Greedy(front).gtIndices);
      if choice.Some? {
        ErrorSumStep(MatchRecords(m, front), RecordOf(m, p, choice.value), m.Gap(choice.value, p), m.limit);
      }
    }
  }

  lemma ErrorSumStep(records: seq<MatchRecord>, r: MatchRecord, gap: real, limit: real)
    requires exists ticks :: ErrorSum(records) == FromTicks(ticks)
    requires ErrorSum(records) <= Times(|records|, Round6(limit))
    requires r.centerDistance == Round6(gap) && gap <= limit
    ensures exists ticks :: ErrorSum(records + [r]) == FromTicks(ticks)
    ensures ErrorSum(records + [r]) <= Times(|records + [r]|, Round6(limit))
  {
    assert (records + [r])[..|records|] == records;
    var ticks :| ErrorSum(records) == FromTicks(ticks);
    assert ErrorSum(records + [r]) == FromTicks(ticks + Ticks(gap));
    RoundMonotone(gap, limit);
  }

  lemma {:induction false} TimesAdds(a: nat, b: nat, r: real)
    ensures Times(a + b, r) == Times(a, r) + Times(b, r)
  {
    if b > 0 {
      TimesAdds(a, b - 1, r);
    }
  }

  lemma MeanBound(sum: real, n: nat, limit: real)
    requires n > 0 && sum <= Times(n, Round6(limit))
    ensures Round6(SafeDiv(sum, n as real)) <= Round6(limit)
  {
    TimesIsProduct(n, Round6(limit));
    QuotientBound(sum, n, Round6(limit));
    RoundMonotone(SafeDiv(sum, n as real), Round6(limit));
    RoundIdempotent(limit);
  }

  /** The reported total is the exact sum of the reported distances, and it stays
      within the rounded match distance per match. */
  lemma TotalErrorBound(m: Matcher, predictions: seq<Prediction>)
    ensures
      var e := Report(m, predictions);
      && e.totalError == ErrorSum(e.matches)
      && 0 <= e.matchedCount == |e.matches|
      && e.totalError <= Times(e.matchedCount, Round6(m.limit))
  {
    hide Numerics.SafeDiv, Ratio, ErrorSum, ClassMetrics, MatchRecords, Times, Evaluable, GreedyMatching.Matcher.Greedy;
    var records := MatchRecords(m, Evaluable(predictions));
    ErrorSumBound(m, Evaluable(predictions));
    var ticks :| ErrorSum(records) == FromTicks(ticks);
    RoundFixesTicks(ticks);
  }

  /** The mean distance error never exceeds the rounded match distance. */
  lemma MeanErrorBound(m: Matcher, predictions: seq<Prediction>)
    ensures
      var e := Report(m, predictions);
      e.matchedCount > 0 ==> e.meanError <= Round6(m.limit)
  {
    hide Numerics.SafeDiv, Numerics.Round6, Ratio, ErrorSum, ClassMetrics, MatchRecords, Times, Evaluable;
    hide GreedyMatching.Matcher.Greedy;
    var records := MatchRecords(m, Evaluable(predictions));
    ErrorSumBound(m, Evaluable(predictions));
    if |records| > 0 {
      MeanBound(ErrorSum(records), |records|, m.limit);
    }
  }

  // ---- comparing reports ----

  lemma ShareMonotone(part: int, more: int, whole: int)
    requires 0 <= part <= more <= whole
    ensures Ratio(part, whole - part) <= Ratio(more, whole - more)
  {
    if whole > 0 {
      assert part * whole <= more * whole;
      QuotientOrder(part, whole, more, whole);
      RoundMonotone(SafeDiv(part as real, whole as real), SafeDiv(more as real, whole as real));
    }
  }

  lemma HitCounts(m: Matcher, preds: seq<Prediction>)
    ensures
      var o := m.Greedy(preds);
      |MatchRecords(m, preds)| == |o.matches| == |o.predIndices| == |o.gtIndices| <= |m.gts|
  {
    m.GreedyIsMatching(preds);
    RecordsDescribeMatches(m, preds);
    MatchedInRange(m, preds);
  }

  /** The counts of a report, in terms of the claimed ground truths. */
  lemma ReportCounts(m: Matcher, predictions: seq<Prediction>)
    ensures
      var e, hits := Report(m, predictions), |m.Greedy(Evaluable(predictions)).gtIndices|;
      && e.tp == hits <= |m.gts|
      && e.fp == |Evaluable(predictions)| - hits
      && e.fn == |m.gts| - hits
      && e.recall == Ratio(hits, |m.gts| - hits)
  {
    hide Ratio, ClassMetrics, ErrorSum, Numerics.SafeDiv, Numerics.Round6, Evaluable, MatchRecords;
    hide GreedyMatching.Matcher.Greedy;
    HitCounts(m, Evaluable(predictions));
  }

  /** Raising the match distance never lowers the hits or the recall of a sample. */
  lemma RaisedDistance(near: Matcher, far: Matcher, predictions: seq<Prediction>)
    requires near.gts == far.gts && near.dist == far.dist && near.limit <= far.limit
    ensures
      var e, f := Report(near, predictions), Report(far, predictions);
      e.tp <= f.tp && f.fp <= e.fp && f.fn <= e.fn && e.recall <= f.recall
  {
    hide Ratio, Report, Evaluable, MatchRecords, GreedyMatching.Matcher.Greedy;
    var preds := Evaluable(predictions);
    DistanceMonotone(near, far, preds);
    HitCounts(near, preds);
    HitCounts(far, preds);
    ReportCounts(near, predictions);
    ReportCounts(far, predictions);
    ShareMonotone(Report(near, predictions).tp, Report(far, predictions).tp, |near.gts|);
  }

  lemma MatchedInRange(m: Matcher, preds: seq<Prediction>)
    ensures |m.Greedy(preds).matches| <= |m.gts|
  {
    m.GreedyIsMatching(preds);
    IndicesInRange(m, preds);
    InitialSegment(m.Greedy(preds).gtIndices, |m.gts|);
  }

  lemma {:induction false} IndicesInRange(m: Matcher, preds: seq<Prediction>)
    ensures forall g | g in m.Greedy(preds).gtIndices :: g < |m.gts|
  {
    if preds != [] {
      IndicesInRange(m, preds[..|preds| - 1]);
    }
  }

  lemma {:induction false} InitialSegment(s: set<nat>, n: nat)
    requires forall i | i in s :: i < n
    ensures |s| <= n
  {
    if n == 0 {
      assert s == {};
    } else {
      InitialSegment(s - {n - 1}, n - 1);
    }
  }

  lemma {:induction false} EvaluableConcat(a: seq<Prediction>, b: seq<Prediction>)
    ensures Evaluable(a + b) == Evaluable(a) + Evaluable(b)
  {
    if b == [] {
      assert a + b == a;
    } else {
      EvaluableConcat(a, b[..|b| - 1]);
      assert (a + b)[..|a + b| - 1] == a + b[..|b| - 1];
    }
  }

  lemma EvaluableInsert(a: seq<Prediction>, x: Prediction, b: seq<Prediction>)
    ensures
      Evaluable(a + [x] + b) == Evaluable(a) + (if IsEvaluable(x) then [x] else []) + Evaluable(b)
  {
    EvaluableConcat(a + [x], b);
    EvaluableConcat(a, [x]);
    assert [x][..0] == [];
  }

  /** One extra prediction anywhere in the list never lowers the recall, and raises
      the hits and the false positives by at most one each. */
  lemma ExtraPrediction(m: Matcher, a: seq<Prediction>, x: Prediction, b: seq<Prediction>)
    ensures
      var e, f := Report(m, a + b), Report(m, a + [x] + b);
      && e.tp <= f.tp <= e.tp + 1 && e.fp <= f.fp <= e.fp + 1 && e.recall <= f.recall
  {
    hide Ratio, Report, Evaluable, MatchRecords, GreedyMatching.Matcher.Greedy;
    EvaluableConcat(a, b);
    EvaluableInsert(a, x, b);
    ReportCounts(m, a + b);
    ReportCounts(m, a + [x] + b);
    var u, v := Evaluable(a), Evaluable(b);
    if IsEvaluable(x) {
      HitsInserted(m, u, x, v);
    } else {
      assert u + [] + v == u + v;
    }
    ShareMonotone(Report(m, a + b).tp, Report(m, a + [x] + b).tp, |m.gts|);
  }

  lemma HitsInserted(m: Matcher, u: seq<Prediction>, x: Prediction, v: seq<Prediction>)
    ensures |m.Greedy(u + v).gtIndices| <= |m.Greedy(u + [x] + v).gtIndices| <= |m.Greedy(u + v).gtIndices| + 1
  {
    hide GreedyMatching.Matcher.Greedy;
    InsertedPrediction(m, u, x, v);
    m.GreedyIsMatching(u + v);
    m.GreedyIsMatching(u + [x] + v);
  }

  /** A failed lift changes nothing but the counts of predictions. */
  lemma ExtraFailedLift(m: Matcher, a: seq<Prediction>, x: Prediction, b: seq<Prediction>)
    requires !IsEvaluable(x)
    ensures
      var e := Report(m, a + b);
      Report(m, a + [x] + b) ==
        e.(predictionCount := e.predictionCount + 1, liftingFailedCount := e.liftingFailedCount + 1)
  {
    hide Ratio, Evaluable, ClassMetrics, ErrorSum, Numerics.SafeDiv, Numerics.Round6, MatchRecords;
    hide GreedyMatching.Matcher.Greedy;
    EvaluableConcat(a, b);
    EvaluableInsert(a, x, b);
    assert Evaluable(a) + [] + Evaluable(b) == Evaluable(a) + Evaluable(b);
  }
}
