/** Run-level totals accumulated from the sample reports. */
module Accumulation {
  import opened Numerics
  import opened GreedyMatching
  import opened CategoryIndependence
  import opened ClassStats
  import opened SampleEvaluation
  import opened Names

  datatype Totals = Totals(
    tp: int, fp: int, fn: int,
    distanceError: real, matchedCount: int,
    predictionCount: int, liftingFailedCount: int,
    classStats: Stats)
  {
    function Add(e: SampleEval): Totals {
      Totals(
        tp + e.tp, fp + e.fp, fn + e.fn,
        distanceError + e.totalError, matchedCount + e.matchedCount,
        predictionCount + e.predictionCount, liftingFailedCount + e.liftingFailedCount,
        Merged(classStats, e.classMetrics))
    }
  }

  function NoTotals(): Totals {
    Totals(0, 0, 0, 0.0, 0, 0, 0, map[])
  }

  function TotalsOf(evals: seq<SampleEval>): Totals {
    if evals == [] then NoTotals()
    else TotalsOf(evals[..|evals| - 1]).Add(evals[|evals| - 1])
  }

  class EvaluationAccumulator {
    var totalTp: int
    var totalFp: int
    var totalFn: int
    var totalDistanceError: real
    var matchedCount: int
    var rawPredictionCount: int
    var liftingFailedPredictionCount: int
    var classStats: Stats

    constructor ()
      ensures State() == NoTotals()
    {
      totalTp, totalFp, totalFn := 0, 0, 0;
      totalDistanceError, matchedCount := 0.0, 0;
      rawPredictionCount, liftingFailedPredictionCount := 0, 0;
      classStats := map[];
    }

    function State(): Totals
      reads this
    {
      Totals(totalTp, totalFp, totalFn, totalDistanceError, matchedCount,
             rawPredictionCount, liftingFailedPredictionCount, classStats)
    }

    method Add(e: SampleEval)
      modifies this
      ensures State() == old(State()).Add(e)
    {
      totalTp := totalTp + e.tp;
      totalFp := totalFp + e.fp;
      totalFn := totalFn + e.fn;
      totalDistanceError := totalDistanceError + e.totalError;
      matchedCount := matchedCount + e.matchedCount;
      rawPredictionCount := rawPredictionCount + e.predictionCount;
      liftingFailedPredictionCount := liftingFailedPredictionCount + e.liftingFailedCount;
      classStats := MergeClassStats(classStats, e.classMetrics);
    }

    method BuildMetrics() returns (metrics: RunMetrics)
      ensures metrics == MetricsOf(State())
    {
      metrics := RunMetrics(
        totalTp, totalFp, totalFn,
        Round6(SafeDiv(totalTp as real, (totalTp + totalFp) as real)),
        Round6(SafeDiv(totalTp as real, (totalTp + totalFn) as real)),
        Round6(SafeDiv(totalDistanceError, matchedCount as real)),
        totalTp + totalFp, liftingFailedPredictionCount);
    }

    method BuildClassMetrics() returns (metrics: ClassTable)
      ensures metrics == Finalized(State().classStats)
    {
      metrics := FinalizeClassMetrics(classStats);
    }
  }

  datatype RunMetrics = RunMetrics(
    tp: int, fp: int, fn: int,
    precision: real, recall: real, meanError: real,
    evaluableCount: int, liftingFailedCount: int)

  function MetricsOf(t: Totals): RunMetrics {
    RunMetrics(t.tp, t.fp, t.fn, Ratio(t.tp, t.fp), Ratio(t.tp, t.fn),
               Round6(SafeDiv(t.distanceError, t.matchedCount as real)),
               t.tp + t.fp, t.liftingFailedCount)
  }

  /** The finalized precision of one class. */
  function ClassPrecision(c: Counts): real {
    Ratio(c.tp, c.fp)
  }

  datatype ClassReport = ClassReport(tp: nat, fp: nat, fn: nat, precision: real, recall: real)

  function ClassReportOf(c: Counts): ClassReport {
    ClassReport(c.tp, c.fp, c.fn, ClassPrecision(c), Ratio(c.tp, c.fn))
  }

  /** The classes in the order they are listed, and the report of each. */
  datatype ClassTable = ClassTable(names: seq<string>, reports: map<string, ClassReport>)

  ghost function Finalized(stats: Stats): ClassTable {
    ClassTable(Ascending(stats.Keys), ReportsOf(stats.Keys, stats))
  }

  function ReportsOf<K>(keys: set<K>, stats: map<K, Counts>): map<K, ClassReport>
    requires keys <= stats.Keys
  {
    map c | c in keys :: ClassReportOf(stats[c])
  }

  lemma NoReports<K>(stats: map<K, Counts>)
    ensures ReportsOf({}, stats) == map[]
  {
  }

  lemma OneMoreReport<K>(keys: set<K>, stats: map<K, Counts>, c: K)
    requires keys <= stats.Keys && c in stats
    ensures ReportsOf(keys + {c}, stats) == ReportsOf(keys, stats)[c := ClassReportOf(stats[c])]
  {
    hide ClassReportOf;
  }

  method FinalizeClassMetrics(stats: Stats) returns (finalized: ClassTable)
    ensures finalized == Finalized(stats)
  {
    hide Ratio, ReportsOf, Names.Ascending;
    var names := SortNames(stats.Keys);
    AscendingAscends(stats.Keys);
    var reports := map[];
    ghost var done := {};
    NoReports(stats);
    for i := 0 to |names|
      invariant done <= stats.Keys && forall c :: c in done <==> c in names[..i]
      invariant reports == ReportsOf(done, stats)
    {
      var c := names[i];
      var counts := stats[c];
      OneMoreReport(done, stats, c);
      reports := reports[c := ClassReport(counts.tp, counts.fp, counts.fn,
                                          Ratio(counts.tp, counts.fp), Ratio(counts.tp, counts.fn))];
      done := done + {c};
      assert names[..i + 1] == names[..i] + [c];
    }
    assert done == stats.Keys;
    finalized := ClassTable(names, reports);
  }

  // ---- the order of the samples does not matter ----

  lemma AddSwap(t: Totals, a: SampleEval, b: SampleEval)
    ensures t.Add(a).Add(b) == t.Add(b).Add(a)
  {
    MergedSwap(t.classStats, a.classMetrics, b.classMetrics);
  }

  function Without(evals: seq<SampleEval>, i: nat): seq<SampleEval>
    requires i < |evals|
  {
    evals[..i] + evals[i + 1..]
  }

  /** Any one report could have been added last. */
  lemma {:induction false} AddedLast(evals: seq<SampleEval>, i: nat)
    requires i < |evals|
    ensures TotalsOf(evals) == TotalsOf(Without(evals, i)).Add(evals[i])
  {
    hide Totals.Add;
    var front, last := evals[..|evals| - 1], evals[|evals| - 1];
    if i < |front| {
      AddedLast(front, i);
      var rest := Without(front, i);
      assert Without(evals, i) == rest + [last];
      assert (rest + [last])[..|rest|] == rest;
      AddSwap(TotalsOf(rest), evals[i], last);
    } else {
      assert Without(evals, i) == front;
    }
  }

  lemma WithoutCounts(evals: seq<SampleEval>, i: nat)
    requires i < |evals|
    ensures multiset(evals) == multiset(Without(evals, i)) + multiset{evals[i]}
  {
    assert evals == evals[..i] + [evals[i]] + evals[i + 1..];
  }

  lemma CancelOne<T>(a: multiset<T>, b: multiset<T>, x: T)
    requires a + multiset{x} == b + multiset{x}
    ensures a == b
  {
    assert a == (a + multiset{x}) - multiset{x};
    assert b == (b + multiset{x}) - multiset{x};
  }

  /** The last element of a sequence, taken out of a permutation of it. */
  lemma TakeOutLast<T>(a: seq<T>, b: seq<T>) returns (left: seq<T>, right: seq<T>)
    requires a != [] && multiset(a) == multiset(b)
    ensures b == left + [a[|a| - 1]] + right
    ensures multiset(a[..|a| - 1]) == multiset(left + right)
  {
    var front, last := a[..|a| - 1], a[|a| - 1];
    assert a == front + [last];
    assert last in multiset(b);
    var i :| 0 <= i < |b| && b[i] == last;
    left, right := b[..i], b[i + 1..];
    assert b == left + [last] + right;
    CancelOne(multiset(front), multiset(left + right), last);
  }

  /** Totals and class statistics are the same for every order of the samples. */
  lemma {:induction false} OrderDoesNotMatter(a: seq<SampleEval>, b: seq<SampleEval>)
    requires multiset(a) == multiset(b)
    ensures TotalsOf(a) == TotalsOf(b)
  {
    if a == [] {
      assert |multiset(b)| == 0;
    } else {
      hide Totals.Add, NoTotals;
      var last := a[|a| - 1];
      assert last in multiset(a);
      var i :| 0 <= i < |b| && b[i] == last;
      WithoutCounts(a, |a| - 1);
      WithoutCounts(b, i);
      assert Without(a, |a| - 1) == a[..|a| - 1];
      CancelOne(multiset(a[..|a| - 1]), multiset(Without(b, i)), last);
      OrderDoesNotMatter(a[..|a| - 1], Without(b, i));
      AddedLast(b, i);
    }
  }

  // ---- class sums and bounds ----

  /** A report whose class sums are its own totals, as every sample report is. */
  ghost predicate Exact(e: SampleEval) {
    0 <= e.tp && 0 <= e.fp && 0 <= e.fn && Sum(e.classMetrics) == Counts(e.tp, e.fp, e.fn)
  }

  lemma ReportsAreExact(m: Matcher, predictions: seq<Prediction>)
    requires forall a | a in m.gts :: IsSupported(a)
    ensures Exact(Report(m, predictions))
  {
    ClassSums(m, predictions);
  }

  ghost predicate ExactTotals(t: Totals) {
    0 <= t.tp && 0 <= t.fp && 0 <= t.fn && Sum(t.classStats) == Counts(t.tp, t.fp, t.fn)
  }

  lemma ExactAdd(t: Totals, e: SampleEval)
    requires ExactTotals(t) && Exact(e)
    ensures ExactTotals(t.Add(e))
  {
    hide ClassStats.Sum;
    SumOfMerge(t.classStats, e.classMetrics);
  }

  /** After any number of additions the class sums are the run totals. */
  lemma {:induction false} ClassSumsAreTotals(evals: seq<SampleEval>)
    requires forall e | e in evals :: Exact(e)
    ensures ExactTotals(TotalsOf(evals))
  {
    hide Exact;
    if evals == [] {
      assert Sum<string>(map[]) == Zero();
    } else {
      hide ExactTotals;
      assert evals[|evals| - 1] in evals;
      ClassSumsAreTotals(evals[..|evals| - 1]);
      ExactAdd(TotalsOf(evals[..|evals| - 1]), evals[|evals| - 1]);
    }
  }

  /** A distance error that stays within the rounded match distance per match. */
  ghost predicate WithinReach(error: real, count: int, limit: real) {
    0 <= count && error <= Times(count, Round6(limit))
  }

  lemma ReportsStayWithinReach(m: Matcher, predictions: seq<Prediction>)
    ensures WithinReach(Report(m, predictions).totalError, Report(m, predictions).matchedCount, m.limit)
  {
    hide Report;
    TotalErrorBound(m, predictions);
  }

  /** The distance error of a run is bounded per match, and so is its mean. */
  lemma {:induction false} RunErrorBound(evals: seq<SampleEval>, limit: real)
    requires forall e | e in evals :: WithinReach(e.totalError, e.matchedCount, limit)
    ensures
      var t := TotalsOf(evals);
      && WithinReach(t.distanceError, t.matchedCount, limit)
      && (t.matchedCount > 0 ==> MetricsOf(t).meanError <= Round6(limit))
  {
    hide Ratio, Numerics.SafeDiv, Numerics.Round6, ClassStats.Merged;
    if evals != [] {
      var front, last := evals[..|evals| - 1], evals[|evals| - 1];
      assert last in evals;
      RunErrorBound(front, limit);
      TimesAdds(TotalsOf(front).matchedCount, last.matchedCount, Round6(limit));
    }
    var t := TotalsOf(evals);
    if t.matchedCount > 0 {
      MeanBound(t.distanceError, t.matchedCount, limit);
    }
  }

  // ---- what the ratios mean ----

  /** The precision and recall of a run, from any reports of samples. */
  lemma MetricsAreShares(evals: seq<SampleEval>)
    requires forall e | e in evals :: Exact(e)
    ensures
      var m := MetricsOf(TotalsOf(evals));
      && 0 <= m.tp && 0 <= m.fp && 0 <= m.fn && m.evaluableCount == m.tp + m.fp
      && 0.0 <= m.precision <= 1.0 && 0.0 <= m.recall <= 1.0
      && (m.tp == 0 ==> m.precision == m.recall == 0.0)
      && (m.tp > 0 && m.fp == 0 ==> m.precision == 1.0)
      && (m.tp > 0 && m.fn == 0 ==> m.recall == 1.0)
      && (m.evaluableCount > 0 ==>
            -0.0000005 <= m.precision - m.tp as real / m.evaluableCount as real <= 0.0000005)
      && (m.tp + m.fn > 0 ==> -0.0000005 <= m.recall - m.tp as real / (m.tp + m.fn) as real <= 0.0000005)
  {
    hide Exact, Ratio, Numerics.SafeDiv, Numerics.Round6, ClassStats.Sum;
    ClassSumsAreTotals(evals);
    var t := TotalsOf(evals);
    RatioIsShare(t.tp, t.fp);
    RatioIsShare(t.tp, t.fn);
  }

  /** Every class is reported with its own counts, and with its hits as shares of its
      predictions and of its ground truths. */
  lemma ClassReportsAreShares(stats: Stats, c: string)
    requires c in stats
    ensures c in Finalized(stats).reports
    ensures
      var r, n := Finalized(stats).reports[c], stats[c];
      && r.tp == n.tp && r.fp == n.fp && r.fn == n.fn
      && 0.0 <= r.precision <= 1.0 && 0.0 <= r.recall <= 1.0
      && (n.tp == 0 ==> r.precision == r.recall == 0.0)
      && (n.tp + n.fp > 0 ==> -0.0000005 <= r.precision - n.tp as real / (n.tp + n.fp) as real <= 0.0000005)
      && (n.tp + n.fn > 0 ==> -0.0000005 <= r.recall - n.tp as real / (n.tp + n.fn) as real <= 0.0000005)
  {
    hide Ratio, Numerics.SafeDiv, Numerics.Round6, Names.Ascending;
    RatioIsShare(stats[c].tp, stats[c].fp);
    RatioIsShare(stats[c].tp, stats[c].fn);
  }

  // ---- totals add up ----

  /** A single report is its own total. */
  lemma TotalsOfOne(e: SampleEval)
    ensures
      var t := TotalsOf([e]);
      && t.tp == e.tp && t.fp == e.fp && t.fn == e.fn
      && t.distanceError == e.totalError && t.matchedCount == e.matchedCount
      && t.predictionCount == e.predictionCount && t.liftingFailedCount == e.liftingFailedCount
      && t.classStats == e.classMetrics
  {
    assert [e][..0] == [] && TotalsOf([e]) == NoTotals().Add(e);
    var stats := Merged(map[], e.classMetrics);
    forall c | c in stats {
      AtMerged(map[], e.classMetrics, c);
    }
    SameStats(stats, e.classMetrics);
  }

  /** The totals of two lists of reports are added field by field and class by class. */
  lemma {:induction false} TotalsAdd(a: seq<SampleEval>, b: seq<SampleEval>)
    ensures
      var t, u, v := TotalsOf(a), TotalsOf(b), TotalsOf(a + b);
      && v.tp == t.tp + u.tp && v.fp == t.fp + u.fp && v.fn == t.fn + u.fn
      && v.distanceError == t.distanceError + u.distanceError && v.matchedCount == t.matchedCount + u.matchedCount
      && v.predictionCount == t.predictionCount + u.predictionCount
      && v.liftingFailedCount == t.liftingFailedCount + u.liftingFailedCount
      && v.classStats == Merged(t.classStats, u.classStats)
  {
    hide ClassStats.Merged;
    if b == [] {
      assert a + b == a;
      MergeNothing(TotalsOf(a).classStats);
    } else {
      var front, last := b[..|b| - 1], b[|b| - 1];
      assert (a + b)[..|a + b| - 1] == a + front;
      TotalsAdd(a, front);
      MergedAssociates(TotalsOf(a).classStats, TotalsOf(front).classStats, last.classMetrics);
    }
  }

  /** All match records of all reports, in order. */
  function AllMatches(evals: seq<SampleEval>): seq<MatchRecord> {
    if evals == [] then [] else AllMatches(evals[..|evals| - 1]) + evals[|evals| - 1].matches
  }

  /** The report counts its own matches and adds up their distances. */
  ghost predicate TellsMatches(e: SampleEval) {
    e.matchedCount == |e.matches| && e.totalError == ErrorSum(e.matches)
  }

  lemma ReportsTellMatches(m: Matcher, predictions: seq<Prediction>)
    ensures TellsMatches(Report(m, predictions))
  {
    hide Report;
    TotalErrorBound(m, predictions);
  }

  /** The mean error of a run is the mean over all its matches, to half a millionth. */
  lemma {:induction false} RunMeanIsMean(evals: seq<SampleEval>)
    requires forall e | e in evals :: TellsMatches(e)
    ensures
      var t, all := TotalsOf(evals), AllMatches(evals);
      && t.matchedCount == |all| && t.distanceError == ErrorSum(all)
      && (all == [] ==> MetricsOf(t).meanError == 0.0)
      && (all != [] ==>
            -0.0000005 <= MetricsOf(t).meanError - ErrorSum(all) / |all| as real <= 0.0000005)
  {
    hide Ratio, Numerics.Round6, ClassStats.Merged;
    if evals != [] {
      var front, last := evals[..|evals| - 1], evals[|evals| - 1];
      assert TellsMatches(last);
      RunMeanIsMean(front);
      ErrorSumAdds(AllMatches(front), last.matches);
    }
    RoundFixesTicks(0);
    assert FromTicks(0) == 0.0;
  }

  // ---- pooled precision ----

  /** How far the hits of `c` exceed the share `part` of `whole`, cross-multiplied. */
  function Lead(c: Counts, part: int, whole: int): int {
    c.tp * whole - part * (c.tp + c.fp)
  }

  lemma LeadAdds(a: Counts, b: Counts, part: int, whole: int)
    ensures Lead(a.Plus(b), part, whole) == Lead(a, part, whole) + Lead(b, part, whole)
    ensures a.tp + a.fp == 0 ==> Lead(a, part, whole) == 0
    ensures b.tp + b.fp == 0 ==> Lead(b, part, whole) == 0
  {
    assert (a.tp + b.tp) * whole == a.tp * whole + b.tp * whole;
    assert part * ((a.tp + b.tp) + (a.fp + b.fp)) == part * (a.tp + a.fp) + part * (b.tp + b.fp);
  }

  lemma {:induction false} SomeClassLeads<K>(keys: set<K>, stats: map<K, Counts>, part: int, whole: int)
    returns (best: K)
    requires var t := Total(keys, stats); t.tp + t.fp > 0 && Lead(t, part, whole) >= 0
    ensures best in keys && At(stats, best).tp + At(stats, best).fp > 0 && Lead(At(stats, best), part, whole) >= 0
  {
    hide Lead;
    best := Pick(keys);
    var here := At(stats, best);
    if here.tp + here.fp == 0 || Lead(here, part, whole) < 0 {
      LeadAdds(here, Total(keys - {best}, stats), part, whole);
      best := SomeClassLeads(keys - {best}, stats, part, whole);
    }
  }

  lemma {:induction false} SomeClassTrails<K>(keys: set<K>, stats: map<K, Counts>, part: int, whole: int)
    returns (worst: K)
    requires var t := Total(keys, stats); t.tp + t.fp > 0 && Lead(t, part, whole) <= 0
    ensures worst in keys && At(stats, worst).tp + At(stats, worst).fp > 0 && Lead(At(stats, worst), part, whole) <= 0
  {
    hide Lead;
    worst := Pick(keys);
    var here := At(stats, worst);
    if here.tp + here.fp == 0 || Lead(here, part, whole) > 0 {
      LeadAdds(here, Total(keys - {worst}, stats), part, whole);
      worst := SomeClassTrails(keys - {worst}, stats, part, whole);
    }
  }

  lemma CompareShares(a: Counts, b: Counts)
    requires a.tp + a.fp > 0 && b.tp + b.fp > 0
    ensures Lead(a, b.tp, b.tp + b.fp) >= 0 ==> ClassPrecision(b) <= ClassPrecision(a)
    ensures Lead(a, b.tp, b.tp + b.fp) <= 0 ==> ClassPrecision(a) <= ClassPrecision(b)
  {
    hide Numerics.SafeDiv, Numerics.Round6;
    var n, m := a.tp + a.fp, b.tp + b.fp;
    if a.tp * m >= b.tp * n {
      QuotientOrder(b.tp, m, a.tp, n);
      RoundMonotone(SafeDiv(b.tp as real, m as real), SafeDiv(a.tp as real, n as real));
    }
    if a.tp * m <= b.tp * n {
      QuotientOrder(a.tp, n, b.tp, m);
      RoundMonotone(SafeDiv(a.tp as real, n as real), SafeDiv(b.tp as real, m as real));
    }
  }

  /** The reported precision of a run lies between the reported precisions of two
      of its classes that have predictions. */
  lemma PooledPrecision(evals: seq<SampleEval>) returns (worst: string, best: string)
    requires forall e | e in evals :: Exact(e)
    requires TotalsOf(evals).tp + TotalsOf(evals).fp > 0
    ensures
      var t := TotalsOf(evals);
      && worst in t.classStats && t.classStats[worst].tp + t.classStats[worst].fp > 0
      && best in t.classStats && t.classStats[best].tp + t.classStats[best].fp > 0
      && ClassPrecision(t.classStats[worst]) <= MetricsOf(t).precision <= ClassPrecision(t.classStats[best])
  {
    hide Lead, Exact, Numerics.SafeDiv, Numerics.Round6;
    ClassSumsAreTotals(evals);
    var t := TotalsOf(evals);
    var pooled := Counts(t.tp, t.fp, t.fn);
    OwnLead(pooled);
    best := SomeClassLeads(t.classStats.Keys, t.classStats, t.tp, t.tp + t.fp);
    worst := SomeClassTrails(t.classStats.Keys, t.classStats, t.tp, t.tp + t.fp);
    CompareShares(t.classStats[best], pooled);
    CompareShares(t.classStats[worst], pooled);
  }

  lemma OwnLead(c: Counts)
    ensures Lead(c, c.tp, c.tp + c.fp) == 0
  {
  }
}
