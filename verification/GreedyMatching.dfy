/** The greedy matcher at the heart of the detection evaluation.

    Predictions are taken in list order. Each one claims the nearest ground
    truth of its own category that is still free, the lowest index winning a
    tie, and keeps it only if it lies within the match distance. */
module GreedyMatching {
  import opened Prelude

  datatype Point = Point(x: real, y: real, z: real)

  datatype Annotation = Annotation(annotationId: string, category: Option<string>, translation: Point)

  datatype Prediction = Prediction(
    predictionId: string,
    category: string,
    translation: Point,
    liftingStatus: Option<string>)

  /** A prediction index together with the ground-truth index it claimed. */
  datatype Pairing = Pairing(pred: nat, gt: nat)

  /** The three collections the matching loop grows. */
  datatype Outcome = Outcome(gtIndices: set<nat>, predIndices: set<nat>, matches: seq<Pairing>)

  function GtsOf(matches: seq<Pairing>): set<nat> {
    if matches == [] then {} else GtsOf(matches[..|matches| - 1]) + {matches[|matches| - 1].gt}
  }

  function PredsOf(matches: seq<Pairing>): set<nat> {
    if matches == [] then {} else PredsOf(matches[..|matches| - 1]) + {matches[|matches| - 1].pred}
  }

  lemma {:induction false} NotProjected(matches: seq<Pairing>, p: nat)
    requires forall k | 0 <= k < |matches| :: matches[k].pred != p
    ensures p !in PredsOf(matches)
  {
    if matches != [] {
      NotProjected(matches[..|matches| - 1], p);
    }
  }

  lemma {:induction false} GtProjected(matches: seq<Pairing>, k: nat)
    requires k < |matches|
    ensures matches[k].gt in GtsOf(matches)
  {
    if k < |matches| - 1 {
      GtProjected(matches[..|matches| - 1], k);
    }
  }

  datatype Matcher = Matcher(gts: seq<Annotation>, dist: (Point, Point) -> real, limit: real) {

    predicate Free(g: nat, p: Prediction, taken: set<nat>) {
      g < |gts| && g !in taken && gts[g].category == Some(p.category)
    }

    function Gap(g: nat, p: Prediction): real
      requires g < |gts|
    {
      dist(gts[g].translation, p.translation)
    }

    /** `g` is preferred to `h`: strictly nearer, or as near and listed first. */
    predicate Closer(g: nat, h: nat, p: Prediction)
      requires g < |gts| && h < |gts|
    {
      Gap(g, p) < Gap(h, p) || (Gap(g, p) == Gap(h, p) && g < h)
    }

    /** The scan of the first `n` ground truths for one prediction. */
    function Nearest(p: Prediction, taken: set<nat>, n: nat): (best: Option<nat>)
      requires n <= |gts|
      ensures best.None? ==> forall h: nat | h < n :: !Free(h, p, taken)
      ensures best.Some? ==> best.value < n && Free(best.value, p, taken)
      ensures best.Some? ==>
        forall h: nat | h < n && Free(h, p, taken) :: h == best.value || Closer(best.value, h, p)
    {
      if n == 0 then None
      else
        var best := Nearest(p, taken, n - 1);
        if Free(n - 1, p, taken) && (best.None? || Gap(n - 1, p) < Gap(best.value, p)) then Some(n - 1)
        else best
    }

    /** What one prediction claims when `taken` is already gone. */
    function Choice(p: Prediction, taken: set<nat>): (choice: Option<nat>)
      ensures choice.None? ==> forall h: nat | Free(h, p, taken) :: limit < Gap(h, p)
      ensures choice.Some? ==> Free(choice.value, p, taken) && Gap(choice.value, p) <= limit
      ensures choice.Some? ==>
        forall h: nat | Free(h, p, taken) :: h == choice.value || Closer(choice.value, h, p)
    {
      var best := Nearest(p, taken, |gts|);
      if best.Some? && Gap(best.value, p) <= limit then best else None
    }

    function Greedy(preds: seq<Prediction>): Outcome {
      if preds == [] then Outcome({}, {}, [])
      else
        var last := |preds| - 1;
        var before := Greedy(preds[..last]);
        match Choice(preds[last], before.gtIndices)
        case None => before
        case Some(g) =>
          Outcome(before.gtIndices + {g}, before.predIndices + {last}, before.matches + [Pairing(last, g)])
    }

    /** Same category and within the match distance. */
    predicate Compatible(m: Pairing, preds: seq<Prediction>) {
      && m.pred < |preds|
      && m.gt < |gts|
      && gts[m.gt].category == Some(preds[m.pred].category)
      && Gap(m.gt, preds[m.pred]) <= limit
    }

    /** A set of pairings any evaluator could have chosen: compatible, and one-to-one. */
    ghost predicate ValidMatching(pairs: set<Pairing>, preds: seq<Prediction>) {
      && (forall m | m in pairs :: Compatible(m, preds))
      && (forall m, n | m in pairs && n in pairs && m != n :: m.pred != n.pred && m.gt != n.gt)
    }

    /** The matches form a one-to-one list of compatible pairings, in prediction
        order, and the two index sets are exactly its projections. */
    ghost predicate OneToOne(o: Outcome, preds: seq<Prediction>) {
      && |o.gtIndices| == |o.predIndices| == |o.matches|
      && o.gtIndices == GtsOf(o.matches)
      && o.predIndices == PredsOf(o.matches)
      && (forall k | 0 <= k < |o.matches| :: Compatible(o.matches[k], preds))
      && (forall i, j | 0 <= i < j < |o.matches| ::
            o.matches[i].pred < o.matches[j].pred && o.matches[i].gt != o.matches[j].gt)
    }

    lemma {:induction false} GreedyIsMatching(preds: seq<Prediction>)
      ensures OneToOne(Greedy(preds), preds)
    {
      if preds != [] {
        var last := |preds| - 1;
        var before := Greedy(preds[..last]);
        GreedyIsMatching(preds[..last]);
        WiderMatching(before, preds);
        var choice := Choice(preds[last], before.gtIndices);
        if choice.Some? {
          ExtendMatching(before, preds, choice.value);
        }
      }
    }

    lemma WiderMatching(o: Outcome, preds: seq<Prediction>)
      requires preds != [] && OneToOne(o, preds[..|preds| - 1])
      ensures OneToOne(o, preds)
      ensures forall k | 0 <= k < |o.matches| :: o.matches[k].pred < |preds| - 1
    {
      forall k | 0 <= k < |o.matches| ensures Compatible(o.matches[k], preds) && o.matches[k].pred < |preds| - 1 {
        assert Compatible(o.matches[k], preds[..|preds| - 1]);
      }
    }

    lemma ExtendMatching(o: Outcome, preds: seq<Prediction>, g: nat)
      requires preds != [] && OneToOne(o, preds)
      requires forall k | 0 <= k < |o.matches| :: o.matches[k].pred < |preds| - 1
      requires Compatible(Pairing(|preds| - 1, g), preds) && g !in o.gtIndices
      ensures
        var last := |preds| - 1;
        OneToOne(Outcome(o.gtIndices + {g}, o.predIndices + {last}, o.matches + [Pairing(last, g)]), preds)
    {
      var last := |preds| - 1;
      var matches := o.matches + [Pairing(last, g)];
      assert matches[..|matches| - 1] == o.matches;
      assert last !in o.predIndices by {
        NotProjected(o.matches, last);
      }
      forall k | 0 <= k < |o.matches| ensures o.matches[k].gt != g {
        GtProjected(o.matches, k);
      }
    }

    /** One more prediction at the end. */
    lemma GreedySnoc(preds: seq<Prediction>, p: Prediction)
      ensures
        var before, o := Greedy(preds), Greedy(preds + [p]);
        match Choice(p, before.gtIndices)
        case None => o == before
        case Some(g) =>
          o == Outcome(before.gtIndices + {g}, before.predIndices + {|preds|}, before.matches + [Pairing(|preds|, g)])
    {
      assert (preds + [p])[..|preds + [p]| - 1] == preds;
    }

    /** The ground truth that the prediction at `i` takes in a run over `preds`. */
    function Claim(preds: seq<Prediction>, i: nat): Option<nat>
      requires i < |preds|
    {
      Choice(preds[i], Greedy(preds[..i]).gtIndices)
    }

    lemma {:induction false} MatchesAreClaims(preds: seq<Prediction>, m: Pairing)
      ensures m in Greedy(preds).matches <==> m.pred < |preds| && Claim(preds, m.pred) == Some(m.gt)
    {
      if preds != [] {
        var front, p := preds[..|preds| - 1], preds[|preds| - 1];
        MatchesAreClaims(front, m);
        assert front + [p] == preds;
        GreedySnoc(front, p);
        if m.pred < |front| {
          assert front[..m.pred] == preds[..m.pred];
        }
      }
    }

    lemma {:induction false} GreedyGrows(preds: seq<Prediction>, n: nat)
      requires n <= |preds|
      ensures Greedy(preds[..n]).gtIndices <= Greedy(preds).gtIndices
      ensures Greedy(preds[..n]).predIndices <= Greedy(preds).predIndices
    {
      if n < |preds| {
        var shorter := preds[..|preds| - 1];
        GreedyGrows(shorter, n);
        assert shorter[..n] == preds[..n];
      } else {
        assert preds[..n] == preds;
      }
    }

    /** Nothing compatible is left over: a pairing of two unmatched indices is
        always too far apart. */
    lemma {:induction false} GreedyIsMaximal(preds: seq<Prediction>, m: Pairing)
      requires Compatible(m, preds)
      ensures m.pred in Greedy(preds).predIndices || m.gt in Greedy(preds).gtIndices
    {
      var prefix := preds[..m.pred + 1];
      var before := Greedy(preds[..m.pred]);
      assert prefix[..m.pred] == preds[..m.pred];
      GreedyGrows(preds, m.pred + 1);
      if m.gt !in before.gtIndices {
        assert Free(m.gt, preds[m.pred], before.gtIndices);
        assert m.pred in Greedy(prefix).predIndices;
      } else {
        assert m.gt in Greedy(prefix).gtIndices;
      }
    }

    /** The greedy result is at least half as large as the best possible one. */
    lemma HalfOfOptimum(preds: seq<Prediction>, pairs: set<Pairing>)
      requires ValidMatching(pairs, preds)
      ensures |pairs| <= 2 * |Greedy(preds).matches|
    {
      var o := Greedy(preds);
      GreedyIsMatching(preds);
      var byPred := set m | m in pairs && m.pred in o.predIndices;
      var byGt := set m | m in pairs && m.pred !in o.predIndices;
      assert pairs == byPred + byGt;
      forall m | m in byGt ensures m.gt in o.gtIndices {
        GreedyIsMaximal(preds, m);
      }
      PredProjection(byPred, o.predIndices);
      GtProjection(byGt, o.gtIndices);
    }
  }

  lemma {:induction false} PredProjection(pairs: set<Pairing>, indices: set<nat>)
    requires forall m | m in pairs :: m.pred in indices
    requires forall m, n | m in pairs && n in pairs && m != n :: m.pred != n.pred
    ensures |pairs| <= |indices|
  {
    if m :| m in pairs {
      PredProjection(pairs - {m}, indices - {m.pred});
    }
  }

  lemma {:induction false} GtProjection(pairs: set<Pairing>, indices: set<nat>)
    requires forall m | m in pairs :: m.gt in indices
    requires forall m, n | m in pairs && n in pairs && m != n :: m.gt != n.gt
    ensures |pairs| <= |indices|
  {
    if m :| m in pairs {
      GtProjection(pairs - {m}, indices - {m.gt});
    }
  }

  /** The factor two is attained: with both ground truths inside the distance,
      the first prediction can take the only one the second could have had. */
  lemma HalfIsTight(a: Annotation, b: Annotation, p: Prediction, q: Prediction,
                    dist: (Point, Point) -> real, limit: real)
    requires a.category == b.category == Some(p.category) == Some(q.category)
    requires dist(a.translation, p.translation) < dist(b.translation, p.translation) <= limit
    requires dist(a.translation, q.translation) <= limit < dist(b.translation, q.translation)
    ensures
      var m := Matcher([a, b], dist, limit);
      && m.ValidMatching({Pairing(0, 1), Pairing(1, 0)}, [p, q])
      && |{Pairing(0, 1), Pairing(1, 0)}| == 2 * |m.Greedy([p, q]).matches|
  {
    var m := Matcher([a, b], dist, limit);
    assert m.Free(0, p, {}) && m.Free(1, p, {});
    assert m.Choice(p, {}) == Some(0);
    m.GreedySnoc([], p);
    assert m.Choice(q, {0}) == None;
    m.GreedySnoc([p], q);
    assert [] + [p] == [p] && [p] + [q] == [p, q];
    assert m.Greedy([p, q]).matches == [Pairing(0, 0)];
    assert Pairing(0, 1) != Pairing(1, 0);
  }

  // ---- comparing two runs ----

  /** One matching step never falls behind a run that has less taken and a
      shorter reach. */
  lemma StepMonotone(near: Matcher, far: Matcher, p: Prediction, less: set<nat>, more: set<nat>)
    requires near.gts == far.gts && near.dist == far.dist && near.limit <= far.limit
    requires less <= more
    ensures
      var c, d := near.Choice(p, less), far.Choice(p, more);
      c.Some? ==> c.value in more || c == d
  {
    var c, d := near.Choice(p, less), far.Choice(p, more);
    if c.Some? && c.value !in more {
      assert far.Free(c.value, p, more);
      assert far.Gap(c.value, p) == near.Gap(c.value, p);
      assert d.Some?;
      assert near.Free(d.value, p, less);
      assert near.Gap(d.value, p) == far.Gap(d.value, p);
    }
  }

  /** Raising the match distance never unmatches a ground truth, so the true
      positives never fall. */
  lemma {:induction false} DistanceMonotone(near: Matcher, far: Matcher, preds: seq<Prediction>)
    requires near.gts == far.gts && near.dist == far.dist && near.limit <= far.limit
    ensures near.Greedy(preds).gtIndices <= far.Greedy(preds).gtIndices
    ensures |near.Greedy(preds).matches| <= |far.Greedy(preds).matches|
  {
    if preds != [] {
      var last := |preds| - 1;
      DistanceMonotone(near, far, preds[..last]);
      StepMonotone(near, far, preds[last],
                   near.Greedy(preds[..last]).gtIndices, far.Greedy(preds[..last]).gtIndices);
    }
    near.GreedyIsMatching(preds);
    far.GreedyIsMatching(preds);
    SubsetSize(near.Greedy(preds).gtIndices, far.Greedy(preds).gtIndices);
  }

  lemma SubsetSize(a: set<nat>, b: set<nat>)
    requires a <= b
    ensures |a| <= |b|
  {
    assert b == a + (b - a);
  }

  /** A second run is ahead of the first by at most the one ground truth `extra`. */
  ghost predicate AheadByOne(base: set<nat>, ahead: set<nat>) {
    base == ahead || exists extra :: extra !in base && ahead == base + {extra}
  }

  /** Inserting one prediction anywhere never unmatches a ground truth and adds at
      most one; the true positives grow by at most one and so do the false ones. */
  lemma {:induction false} InsertedPrediction(m: Matcher, a: seq<Prediction>, x: Prediction, b: seq<Prediction>)
    ensures AheadByOne(m.Greedy(a + b).gtIndices, m.Greedy(a + [x] + b).gtIndices)
    ensures
      var tp, tp' := |m.Greedy(a + b).matches|, |m.Greedy(a + [x] + b).matches|;
      var fp, fp' := |a + b| - tp, |a + [x] + b| - tp';
      tp <= tp' <= tp + 1 && fp <= fp' <= fp + 1
  {
    hide AheadByOne;
    if b == [] {
      assert a + b == a && a + [x] + b == a + [x];
      m.GreedySnoc(a, x);
      AheadAfter(m, x, m.Greedy(a).gtIndices);
    } else {
      var front, p := b[..|b| - 1], b[|b| - 1];
      InsertedPrediction(m, a, x, front);
      assert a + b == (a + front) + [p] && a + [x] + b == (a + [x] + front) + [p];
      m.GreedySnoc(a + front, p);
      m.GreedySnoc(a + [x] + front, p);
      StepAheadByOne(m, p, m.Greedy(a + front).gtIndices, m.Greedy(a + [x] + front).gtIndices);
    }
    AheadSizes(m.Greedy(a + b).gtIndices, m.Greedy(a + [x] + b).gtIndices);
    m.GreedyIsMatching(a + b);
    m.GreedyIsMatching(a + [x] + b);
  }

  lemma AheadAfter(m: Matcher, p: Prediction, taken: set<nat>)
    ensures AheadByOne(taken, After(m, p, taken))
  {
  }

  lemma AheadSizes(base: set<nat>, ahead: set<nat>)
    requires AheadByOne(base, ahead)
    ensures |base| <= |ahead| <= |base| + 1
  {
  }

  function After(m: Matcher, p: Prediction, taken: set<nat>): set<nat> {
    match m.Choice(p, taken)
    case None => taken
    case Some(g) => taken + {g}
  }

  lemma StepAheadByOne(m: Matcher, p: Prediction, base: set<nat>, ahead: set<nat>)
    requires AheadByOne(base, ahead)
    ensures AheadByOne(After(m, p, base), After(m, p, ahead))
  {
    if base != ahead {
      var extra :| extra !in base && ahead == base + {extra};
      var c, d := m.Choice(p, base), m.Choice(p, ahead);
      if d.Some? {
        assert m.Free(d.value, p, base);
      }
      if c.Some? && c.value != extra {
        assert m.Free(c.value, p, ahead);
        assert d == c;
        assert After(m, p, ahead) == After(m, p, base) + {extra};
      } else if c.Some? {
        assert After(m, p, base) == ahead;
      }
    }
  }
}
