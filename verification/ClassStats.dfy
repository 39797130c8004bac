/** Per-category counters and their sums over a whole dictionary. */
module ClassStats {

  datatype Counts = Counts(tp: nat, fp: nat, fn: nat) {
    function Plus(other: Counts): Counts {
      Counts(tp + other.tp, fp + other.fp, fn + other.fn)
    }
  }

  function Zero(): Counts {
    Counts(0, 0, 0)
  }

  function At<K>(stats: map<K, Counts>, c: K): Counts {
    if c in stats then stats[c] else Zero()
  }

  /** What adding one sample's counters to the running dictionary yields. */
  function Merged<K>(total: map<K, Counts>, sample: map<K, Counts>): map<K, Counts> {
    map c | c in total.Keys + sample.Keys :: At(total, c).Plus(At(sample, c))
  }

  lemma AtMerged<K>(total: map<K, Counts>, sample: map<K, Counts>, c: K)
    ensures At(Merged(total, sample), c) == At(total, c).Plus(At(sample, c))
  {
  }

  /** In a merged table a class has the counters of both tables added, one by one, and
      is there if either has it. */
  lemma MergedCounts<K>(total: map<K, Counts>, sample: map<K, Counts>, c: K)
    ensures c in Merged(total, sample) <==> c in total || c in sample
    ensures c in total && c in sample ==>
      var n := Merged(total, sample)[c];
      && n.tp == total[c].tp + sample[c].tp && n.fp == total[c].fp + sample[c].fp
      && n.fn == total[c].fn + sample[c].fn
    ensures c in total && c !in sample ==> Merged(total, sample)[c] == total[c]
    ensures c !in total && c in sample ==> Merged(total, sample)[c] == sample[c]
  {
  }

  lemma MergeNothing<K>(total: map<K, Counts>)
    ensures Merged(total, map[]) == total
  {
  }

  lemma MergedAssociates<K>(a: map<K, Counts>, b: map<K, Counts>, c: map<K, Counts>)
    ensures Merged(Merged(a, b), c) == Merged(a, Merged(b, c))
  {
    var u, v := Merged(Merged(a, b), c), Merged(a, Merged(b, c));
    forall k | k in u
      ensures At(u, k) == At(v, k)
    {
      AtMerged(a, b, k);
      AtMerged(b, c, k);
      AtMerged(Merged(a, b), c, k);
      AtMerged(a, Merged(b, c), k);
    }
    assert u.Keys == v.Keys;
    SameStats(u, v);
  }

  /** Dictionaries with the same keys and the same counters are the same. */
  lemma SameStats<K>(a: map<K, Counts>, b: map<K, Counts>)
    requires a.Keys == b.Keys
    requires forall c | c in a :: At(a, c) == At(b, c)
    ensures a == b
  {
    forall c | c in a ensures c in b && a[c] == b[c] {
      assert At(a, c) == At(b, c);
    }
  }

  /** Adds the counters of one sample to the running dictionary. The categories
      are visited in any order, each one once. */
  method MergeClassStats<K(==)>(total: map<K, Counts>, sample: map<K, Counts>) returns (merged: map<K, Counts>)
    ensures merged == Merged(total, sample)
  {
    merged := total;
    var todo := sample.Keys;
    while todo != {}
      invariant todo <= sample.Keys
      invariant merged.Keys == total.Keys + (sample.Keys - todo)
      invariant forall c | c in merged ::
        At(merged, c) == if c in todo then At(total, c) else At(total, c).Plus(At(sample, c))
      decreases todo
    {
      var c :| c in todo;
      if c !in merged {
        merged := merged[c := Zero()];
      }
      var running, metrics := merged[c], sample[c];
      merged := merged[c := Counts(running.tp + metrics.tp, running.fp + metrics.fp, running.fn + metrics.fn)];
      todo := todo - {c};
    }
    SameStats(merged, Merged(total, sample));
  }

  lemma MergedSwap<K>(t: map<K, Counts>, a: map<K, Counts>, b: map<K, Counts>)
    ensures Merged(Merged(t, a), b) == Merged(Merged(t, b), a)
  {
    var u, v := Merged(Merged(t, a), b), Merged(Merged(t, b), a);
    forall c | c in u ensures At(u, c) == At(v, c) {
      AtMerged(t, a, c);
      AtMerged(t, b, c);
      AtMerged(Merged(t, a), b, c);
      AtMerged(Merged(t, b), a, c);
    }
    assert u.Keys == v.Keys;
    SameStats(u, v);
  }

  ghost function Pick<K>(keys: set<K>): K
    requires keys != {}
  {
    var c :| c in keys; c
  }

  /** The counters of the given categories added up. */
  ghost function Total<K>(keys: set<K>, stats: map<K, Counts>): Counts {
    if keys == {} then Zero()
    else var c := Pick(keys); At(stats, c).Plus(Total(keys - {c}, stats))
  }

  ghost function Sum<K>(stats: map<K, Counts>): Counts {
    Total(stats.Keys, stats)
  }

  lemma {:induction false} TotalRemove<K>(keys: set<K>, stats: map<K, Counts>, c: K)
    requires c in keys
    ensures Total(keys, stats) == At(stats, c).Plus(Total(keys - {c}, stats))
  {
    var d := Pick(keys);
    if c != d {
      TotalRemove(keys - {d}, stats, c);
      TotalRemove(keys - {c}, stats, d);
      assert keys - {d} - {c} == keys - {c} - {d};
    }
  }

  /** Categories without counters add nothing. */
  lemma {:induction false} TotalWider<K>(keys: set<K>, wider: set<K>, stats: map<K, Counts>)
    requires keys <= wider
    requires forall c | c in wider && c !in keys :: At(stats, c) == Zero()
    ensures Total(wider, stats) == Total(keys, stats)
    decreases wider
  {
    if extra :| extra in wider && extra !in keys {
      var rest := wider - {extra};
      assert Total(wider, stats) == Total(rest, stats) by {
        TotalRemove(wider, stats, extra);
      }
      TotalWider(keys, rest, stats);
    } else {
      assert wider == keys;
    }
  }

  lemma PlusSwap(a: Counts, b: Counts, x: Counts, y: Counts)
    ensures a.Plus(b).Plus(x.Plus(y)) == a.Plus(x).Plus(b.Plus(y))
  {
  }

  lemma {:induction false} TotalAdds<K>(keys: set<K>, a: map<K, Counts>, b: map<K, Counts>, both: map<K, Counts>)
    requires forall c | c in keys :: At(both, c) == At(a, c).Plus(At(b, c))
    ensures Total(keys, both) == Total(keys, a).Plus(Total(keys, b))
  {
    if keys != {} {
      var c := Pick(keys);
      var rest := keys - {c};
      TotalAdds(rest, a, b, both);
      PlusSwap(At(a, c), At(b, c), Total(rest, a), Total(rest, b));
    }
  }

  /** Class sums add up across a merge. */
  lemma SumOfMerge<K>(a: map<K, Counts>, b: map<K, Counts>)
    ensures Sum(Merged(a, b)) == Sum(a).Plus(Sum(b))
  {
    var keys := a.Keys + b.Keys;
    TotalAdds(keys, a, b, Merged(a, b));
    TotalWider(a.Keys, keys, a);
    TotalWider(b.Keys, keys, b);
    assert Merged(a, b).Keys == keys;
  }

  /** The counters that tabulate three bags of categories. */
  function Tabulate<K>(keys: set<K>, tp: multiset<K>, fp: multiset<K>, fn: multiset<K>): map<K, Counts> {
    map c | c in keys :: Counts(tp[c], fp[c], fn[c])
  }

  lemma BumpTp<K>(keys: set<K>, tp: multiset<K>, fp: multiset<K>, fn: multiset<K>, c: K)
    requires c in keys
    ensures
      var t := Tabulate(keys, tp, fp, fn);
      c in t && t[c := t[c].(tp := t[c].tp + 1)] == Tabulate(keys, tp + multiset{c}, fp, fn)
  {
  }

  lemma BumpFp<K>(keys: set<K>, tp: multiset<K>, fp: multiset<K>, fn: multiset<K>, c: K)
    requires c in keys
    ensures
      var t := Tabulate(keys, tp, fp, fn);
      c in t && t[c := t[c].(fp := t[c].fp + 1)] == Tabulate(keys, tp, fp + multiset{c}, fn)
  {
  }

  lemma BumpFn<K>(keys: set<K>, tp: multiset<K>, fp: multiset<K>, fn: multiset<K>, c: K)
    requires c in keys
    ensures
      var t := Tabulate(keys, tp, fp, fn);
      c in t && t[c := t[c].(fn := t[c].fn + 1)] == Tabulate(keys, tp, fp, fn + multiset{c})
  {
  }

  /** Tabulated over all its categories, a bag sums to its size. */
  lemma {:induction false} TotalOfTable<K>(keys: set<K>, tp: multiset<K>, fp: multiset<K>, fn: multiset<K>,
                                           stats: map<K, Counts>)
    requires forall c | c in tp || c in fp || c in fn :: c in keys
    requires forall c | c in keys :: At(stats, c) == Counts(tp[c], fp[c], fn[c])
    ensures Total(keys, stats) == Counts(|tp|, |fp|, |fn|)
  {
    if keys == {} {
      assert tp == fp == fn == multiset{};
    } else {
      var c := Pick(keys);
      TotalOfTable(keys - {c}, tp[c := 0], fp[c := 0], fn[c := 0], stats);
    }
  }
}
