/** The match records of a run, and the fact that categories do not interfere:
    the records of one category are the records of a run over that category
    alone. */
module CategoryIndependence {
  import opened Prelude
  import opened Numerics
  import opened GreedyMatching

  datatype MatchRecord = MatchRecord(
    annotationId: string,
    predictionId: string,
    category: string,
    centerDistance: real)

  function RecordOf(m: Matcher, p: Prediction, g: nat): MatchRecord
    requires g < |m.gts|
  {
    MatchRecord(m.gts[g].annotationId, p.predictionId, p.category, Round6(m.Gap(g, p)))
  }

  /** The records appended by the matching loop, in prediction order. */
  function MatchRecords(m: Matcher, preds: seq<Prediction>): seq<MatchRecord> {
    if preds == [] then []
    else
      var front, p := preds[..|preds| - 1], preds[|preds| - 1];
      match m.Choice(p, m.Greedy(front).gtIndices)
      case None => MatchRecords(m, front)
      case Some(g) => MatchRecords(m, front) + [RecordOf(m, p, g)]
  }

  /** There is one record per match, and it describes that match. */
  ghost predicate Describes(m: Matcher, preds: seq<Prediction>, matches: seq<Pairing>, records: seq<MatchRecord>) {
    && |records| == |matches|
    && forall k | 0 <= k < |matches| ::
         && m.Compatible(matches[k], preds)
         && records[k].annotationId == m.gts[matches[k].gt].annotationId
         && records[k].predictionId == preds[matches[k].pred].predictionId
         && records[k].category == preds[matches[k].pred].category
         && records[k].centerDistance ==
              Round6(m.dist(m.gts[matches[k].gt].translation, preds[matches[k].pred].translation))
  }

  lemma {:induction false} RecordsDescribeMatches(m: Matcher, preds: seq<Prediction>)
    ensures Describes(m, preds, m.Greedy(preds).matches, MatchRecords(m, preds))
  {
    if preds != [] {
      var front, p := preds[..|preds| - 1], preds[|preds| - 1];
      RecordsDescribeMatches(m, front);
      DescribesWider(m, front, p, m.Greedy(front).matches, MatchRecords(m, front));
      assert front + [p] == preds;
      m.GreedySnoc(front, p);
    }
  }

  lemma DescribesWider(m: Matcher, front: seq<Prediction>, p: Prediction, matches: seq<Pairing>,
                       records: seq<MatchRecord>)
    requires Describes(m, front, matches, records)
    ensures Describes(m, front + [p], matches, records)
  {
    forall k | 0 <= k < |matches|
      ensures m.Compatible(matches[k], front + [p])
      ensures (front + [p])[matches[k].pred] == front[matches[k].pred]
    {
      assert m.Compatible(matches[k], front);
    }
  }

  function AnnotationsOf(gts: seq<Annotation>, c: string): seq<Annotation> {
    if gts == [] then []
    else
      var last := gts[|gts| - 1];
      AnnotationsOf(gts[..|gts| - 1], c) + if last.category == Some(c) then [last] else []
  }

  function PredictionsOf(preds: seq<Prediction>, c: string): seq<Prediction> {
    if preds == [] then []
    else
      var last := preds[|preds| - 1];
      PredictionsOf(preds[..|preds| - 1], c) + if last.category == c then [last] else []
  }

  function RecordsOf(records: seq<MatchRecord>, c: string): seq<MatchRecord> {
    if records == [] then []
    else
      var last := records[|records| - 1];
      RecordsOf(records[..|records| - 1], c) + if last.category == c then [last] else []
  }

  /** Where the ground truths of category `c` stood before the others were deleted. */
  function Positions(gts: seq<Annotation>, c: string): (at: seq<nat>)
    ensures |at| == |AnnotationsOf(gts, c)|
    ensures forall i | 0 <= i < |at| :: at[i] < |gts| && gts[at[i]] == AnnotationsOf(gts, c)[i]
  {
    if gts == [] then []
    else
      var last := |gts| - 1;
      var front := Positions(gts[..last], c);
      if gts[last].category == Some(c) then front + [last] else front
  }

  lemma {:induction false} PositionsAscend(gts: seq<Annotation>, c: string)
    ensures forall i | 0 <= i < |Positions(gts, c)| :: gts[Positions(gts, c)[i]].category == Some(c)
    ensures forall i, j | 0 <= i < j < |Positions(gts, c)| :: Positions(gts, c)[i] < Positions(gts, c)[j]
  {
    if gts != [] {
      PositionsAscend(gts[..|gts| - 1], c);
    }
  }

  lemma {:induction false} PositionOf(gts: seq<Annotation>, c: string, g: nat) returns (i: nat)
    requires g < |gts| && gts[g].category == Some(c)
    ensures i < |Positions(gts, c)| && Positions(gts, c)[i] == g
  {
    var last := |gts| - 1;
    if g == last {
      i := |Positions(gts[..last], c)|;
    } else {
      i := PositionOf(gts[..last], c, g);
    }
  }

  function Restricted(m: Matcher, c: string): Matcher {
    m.(gts := AnnotationsOf(m.gts, c))
  }

  /** `small` is `taken` seen through the deletion of the other categories. */
  ghost predicate Shrunk(at: seq<nat>, taken: set<nat>, small: set<nat>) {
    && (forall i | 0 <= i < |at| :: i in small <==> at[i] in taken)
    && (forall i | i in small :: i < |at|)
  }

  lemma ChoiceCommutes(m: Matcher, p: Prediction, taken: set<nat>, small: set<nat>)
    requires Shrunk(Positions(m.gts, p.category), taken, small)
    ensures
      var at := Positions(m.gts, p.category);
      match Restricted(m, p.category).Choice(p, small)
      case None => m.Choice(p, taken) == None
      case Some(i) => i < |at| && m.Choice(p, taken) == Some(at[i])
  {
    var at, r := Positions(m.gts, p.category), Restricted(m, p.category);
    var wide, narrow := m.Choice(p, taken), r.Choice(p, small);
    PositionsAscend(m.gts, p.category);
    if narrow.Some? {
      assert m.Free(at[narrow.value], p, taken);
      assert r.Gap(narrow.value, p) == m.Gap(at[narrow.value], p);
    }
    if wide.Some? {
      var i := PositionOf(m.gts, p.category, wide.value);
      assert r.Free(i, p, small);
      assert r.Gap(i, p) == m.Gap(wide.value, p);
    }
  }

  lemma RecordsOfSnoc(records: seq<MatchRecord>, r: MatchRecord, c: string)
    ensures RecordsOf(records + [r], c) == RecordsOf(records, c) + if r.category == c then [r] else []
  {
    assert (records + [r])[..|records|] == records;
  }

  lemma RecordsSnoc(m: Matcher, preds: seq<Prediction>, p: Prediction)
    ensures
      MatchRecords(m, preds + [p]) ==
        match m.Choice(p, m.Greedy(preds).gtIndices)
        case None => MatchRecords(m, preds)
        case Some(g) => MatchRecords(m, preds) + [RecordOf(m, p, g)]
  {
    assert (preds + [p])[..|preds|] == preds;
  }

  ghost predicate Simulates(m: Matcher, preds: seq<Prediction>, c: string) {
    var few := PredictionsOf(preds, c);
    && Shrunk(Positions(m.gts, c), m.Greedy(preds).gtIndices, Restricted(m, c).Greedy(few).gtIndices)
    && RecordsOf(MatchRecords(m, preds), c) == MatchRecords(Restricted(m, c), few)
  }

  lemma SkipOther(m: Matcher, front: seq<Prediction>, p: Prediction, c: string)
    requires Simulates(m, front, c) && p.category != c
    ensures Simulates(m, front + [p], c)
  {
    hide Positions, GreedyMatching.Matcher.Greedy, GreedyMatching.Matcher.Nearest;
    hide MatchRecords, RecordsOf, AnnotationsOf;
    PositionsAscend(m.gts, c);
    assert (front + [p])[..|front|] == front;
    m.GreedySnoc(front, p);
    RecordsSnoc(m, front, p);
    var choice := m.Choice(p, m.Greedy(front).gtIndices);
    if choice.Some? {
      RecordsOfSnoc(MatchRecords(m, front), RecordOf(m, p, choice.value), c);
      assert RecordsOf(MatchRecords(m, front), c) + [] == RecordsOf(MatchRecords(m, front), c);
    }
    assert PredictionsOf(front + [p], c) == PredictionsOf(front, c);
  }

  lemma ShrunkAdd(at: seq<nat>, taken: set<nat>, small: set<nat>, i: nat)
    requires Shrunk(at, taken, small) && i < |at|
    requires forall j, k | 0 <= j < k < |at| :: at[j] < at[k]
    ensures Shrunk(at, taken + {at[i]}, small + {i})
  {
  }

  lemma SameRecord(m: Matcher, p: Prediction, i: nat)
    requires i < |Positions(m.gts, p.category)|
    ensures RecordOf(Restricted(m, p.category), p, i) == RecordOf(m, p, Positions(m.gts, p.category)[i])
  {
  }

  lemma FollowSame(m: Matcher, front: seq<Prediction>, p: Prediction)
    requires Simulates(m, front, p.category)
    ensures Simulates(m, front + [p], p.category)
  {
    var c, r := p.category, Restricted(m, p.category);
    var few, at := PredictionsOf(front, c), Positions(m.gts, c);
    assert PredictionsOf(front + [p], c) == few + [p] by {
      assert (front + [p])[..|front|] == front;
    }
    var taken, small := m.Greedy(front).gtIndices, r.Greedy(few).gtIndices;
    ChoiceCommutes(m, p, taken, small);
    m.GreedySnoc(front, p);
    r.GreedySnoc(few, p);
    RecordsSnoc(m, front, p);
    RecordsSnoc(r, few, p);
    if r.Choice(p, small).Some? {
      var i := r.Choice(p, small).value;
      SameRecord(m, p, i);
      RecordsOfSnoc(MatchRecords(m, front), RecordOf(m, p, at[i]), c);
      PositionsAscend(m.gts, c);
      ShrunkAdd(at, taken, small, i);
    }
  }

  lemma {:induction false} SimulateCategory(m: Matcher, preds: seq<Prediction>, c: string)
    ensures Simulates(m, preds, c)
  {
    if preds != [] {
      hide Simulates;
      var front, p := preds[..|preds| - 1], preds[|preds| - 1];
      SimulateCategory(m, front, c);
      assert front + [p] == preds;
      if p.category == c {
        FollowSame(m, front, p);
      } else {
        SkipOther(m, front, p, c);
      }
    }
  }

  /** Where the predictions of category `c` stood before the others were deleted. */
  function PredPositions(preds: seq<Prediction>, c: string): (at: seq<nat>)
    ensures |at| == |PredictionsOf(preds, c)|
    ensures forall k | 0 <= k < |at| :: at[k] < |preds| && preds[at[k]] == PredictionsOf(preds, c)[k]
  {
    if preds == [] then []
    else
      var last := |preds| - 1;
      var front := PredPositions(preds[..last], c);
      if preds[last].category == c then front + [last] else front
  }

  lemma {:induction false} PredPositionOf(preds: seq<Prediction>, c: string, p: nat) returns (k: nat)
    requires p < |preds| && preds[p].category == c
    ensures k < |PredPositions(preds, c)| && PredPositions(preds, c)[k] == p
  {
    var last := |preds| - 1;
    if p == last {
      k := |PredPositions(preds[..last], c)|;
    } else {
      k := PredPositionOf(preds[..last], c, p);
    }
  }

  lemma {:induction false} BeforePosition(preds: seq<Prediction>, c: string, k: nat)
    requires k < |PredPositions(preds, c)|
    ensures PredictionsOf(preds, c)[k].category == c
    ensures PredictionsOf(preds[..PredPositions(preds, c)[k]], c) == PredictionsOf(preds, c)[..k]
  {
    var front := preds[..|preds| - 1];
    if k < |PredPositions(front, c)| {
      BeforePosition(front, c, k);
      assert front[..PredPositions(front, c)[k]] == preds[..PredPositions(front, c)[k]];
    }
  }

  /** What a prediction of category `c` takes is what it takes in the run over that
      category alone. */
  lemma ClaimIsKept(m: Matcher, preds: seq<Prediction>, c: string, k: nat)
    requires k < |PredPositions(preds, c)|
    ensures
      match Restricted(m, c).Claim(PredictionsOf(preds, c), k)
      case None => m.Claim(preds, PredPositions(preds, c)[k]) == None
      case Some(l) =>
        l < |Positions(m.gts, c)| && m.Claim(preds, PredPositions(preds, c)[k]) == Some(Positions(m.gts, c)[l])
  {
    hide Positions, GreedyMatching.Matcher.Greedy, GreedyMatching.Matcher.Choice;
    var n := PredPositions(preds, c)[k];
    BeforePosition(preds, c, k);
    SimulateCategory(m, preds[..n], c);
    ChoiceCommutes(m, preds[n], m.Greedy(preds[..n]).gtIndices,
                   Restricted(m, c).Greedy(PredictionsOf(preds[..n], c)).gtIndices);
  }

  /** Deleting every prediction and ground truth of the other categories leaves the
      matches of category `c`, index by index, and their records as they were. */
  lemma CategoriesDoNotInterfere(m: Matcher, preds: seq<Prediction>, c: string)
    ensures
      var few, small := PredictionsOf(preds, c), Restricted(m, c);
      var predAt, gtAt := PredPositions(preds, c), Positions(m.gts, c);
      && RecordsOf(MatchRecords(m, preds), c) == MatchRecords(small, few)
      && forall k, l | 0 <= k < |predAt| && 0 <= l < |gtAt| ::
           Pairing(k, l) in small.Greedy(few).matches <==> Pairing(predAt[k], gtAt[l]) in m.Greedy(preds).matches
  {
    hide GreedyMatching.Matcher.Greedy, GreedyMatching.Matcher.Claim, Positions, PredPositions;
    SimulateCategory(m, preds, c);
    PositionsAscend(m.gts, c);
    var few, small := PredictionsOf(preds, c), Restricted(m, c);
    var predAt, gtAt := PredPositions(preds, c), Positions(m.gts, c);
    forall k, l | 0 <= k < |predAt| && 0 <= l < |gtAt|
      ensures Pairing(k, l) in small.Greedy(few).matches <==> Pairing(predAt[k], gtAt[l]) in m.Greedy(preds).matches
    {
      ClaimIsKept(m, preds, c, k);
      small.MatchesAreClaims(few, Pairing(k, l));
      m.MatchesAreClaims(preds, Pairing(predAt[k], gtAt[l]));
    }
  }

  /** Every match of a prediction of category `c` is between two of these positions. */
  lemma MatchesStayInCategory(m: Matcher, preds: seq<Prediction>, pair: Pairing)
    requires pair in m.Greedy(preds).matches
    ensures
      && pair.pred < |preds| && pair.gt < |m.gts|
      && pair.pred in PredPositions(preds, preds[pair.pred].category)
      && pair.gt in Positions(m.gts, preds[pair.pred].category)
  {
    m.GreedyIsMatching(preds);
    assert m.Compatible(pair, preds);
    var c := preds[pair.pred].category;
    var k := PredPositionOf(preds, c, pair.pred);
    var l := PositionOf(m.gts, c, pair.gt);
  }
}
