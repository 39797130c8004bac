/** Stable sorting by an integer key, and overlaying maps in order. */
module Ordering {
  /** Puts `x` behind every element whose key is not greater. */
  function Insert<T>(s: seq<T>, x: T, key: T -> int): seq<T> {
    if s == [] || key(s[|s| - 1]) <= key(x) then s + [x]
    else Insert(s[..|s| - 1], x, key) + [s[|s| - 1]]
  }

  /** Ascending by key; equal keys keep their order. */
  function SortBy<T>(s: seq<T>, key: T -> int): seq<T> {
    if s == [] then [] else Insert(SortBy(s[..|s| - 1], key), s[|s| - 1], key)
  }

  predicate Sorted<T>(s: seq<T>, key: T -> int) {
    forall i, j | 0 <= i < j < |s| :: key(s[i]) <= key(s[j])
  }

  lemma {:induction false} InsertSorts<T>(s: seq<T>, x: T, key: T -> int)
    requires Sorted(s, key)
    ensures Sorted(Insert(s, x, key), key)
    ensures |Insert(s, x, key)| == |s| + 1
    ensures Insert(s, x, key)[|s|] == x || (s != [] && Insert(s, x, key)[|s|] == s[|s| - 1])
  {
    if s != [] && !(key(s[|s| - 1]) <= key(x)) {
      var front := s[..|s| - 1];
      InsertSorts(front, x, key);
      if front != [] {
        assert key(s[|s| - 2]) <= key(s[|s| - 1]);
      }
    }
  }

  lemma {:induction false} InsertKeeps<T>(s: seq<T>, x: T, key: T -> int)
    ensures multiset(Insert(s, x, key)) == multiset(s) + multiset{x}
  {
    if s != [] && !(key(s[|s| - 1]) <= key(x)) {
      InsertKeeps(s[..|s| - 1], x, key);
      assert s == s[..|s| - 1] + [s[|s| - 1]];
    }
  }

  lemma {:induction false} SortBySorts<T>(s: seq<T>, key: T -> int)
    ensures Sorted(SortBy(s, key), key)
  {
    if s != [] {
      SortBySorts(s[..|s| - 1], key);
      InsertSorts(SortBy(s[..|s| - 1], key), s[|s| - 1], key);
    }
  }

  lemma {:induction false} SortByKeeps<T>(s: seq<T>, key: T -> int)
    ensures multiset(SortBy(s, key)) == multiset(s)
  {
    if s != [] {
      SortByKeeps(s[..|s| - 1], key);
      InsertKeeps(SortBy(s[..|s| - 1], key), s[|s| - 1], key);
      assert s == s[..|s| - 1] + [s[|s| - 1]];
    }
  }

  /** `f` of every element, added up. */
  function SumBy<T>(s: seq<T>, f: T -> int): int {
    if s == [] then 0 else SumBy(s[..|s| - 1], f) + f(s[|s| - 1])
  }

  lemma {:induction false} SumBySame<T, U>(a: seq<T>, b: seq<U>, f: T -> int, g: U -> int)
    requires |a| == |b| && forall i | 0 <= i < |a| :: f(a[i]) == g(b[i])
    ensures SumBy(a, f) == SumBy(b, g)
  {
    if a != [] {
      SumBySame(a[..|a| - 1], b[..|b| - 1], f, g);
    }
  }

  /** The positions at which `holds`. */
  function Where<T>(s: seq<T>, holds: T -> bool): set<nat> {
    set i: nat | i < |s| && holds(s[i])
  }

  lemma WhereLast<T>(s: seq<T>, holds: T -> bool)
    ensures s == [] ==> Where(s, holds) == {}
    ensures s != [] ==>
      |Where(s, holds)| == |Where(s[..|s| - 1], holds)| + if holds(s[|s| - 1]) then 1 else 0
  {
    if s != [] {
      var last := |s| - 1;
      assert Where(s, holds) == Where(s[..last], holds) + if holds(s[last]) then {last} else {};
    }
  }

  lemma SameMembers<T>(a: seq<T>, b: seq<T>)
    requires multiset(a) == multiset(b)
    ensures |a| == |b| && forall x :: x in a <==> x in b
  {
    assert |a| == |multiset(a)| == |multiset(b)| == |b|;
    forall x
      ensures x in a <==> x in b
    {
      assert x in a <==> x in multiset(a);
      assert x in b <==> x in multiset(b);
    }
  }

  /** A sorted sequence is left alone. */
  lemma {:induction false} SortedIsFixed<T>(s: seq<T>, key: T -> int)
    requires Sorted(s, key)
    ensures SortBy(s, key) == s
  {
    if s != [] {
      SortedIsFixed(s[..|s| - 1], key);
      if |s| > 1 {
        assert key(s[|s| - 2]) <= key(s[|s| - 1]);
      }
      assert s == s[..|s| - 1] + [s[|s| - 1]];
    }
  }

  /** Elements with the same key are the same. */
  ghost predicate KeyDetermines<T(!new)>(s: seq<T>, key: T -> int) {
    forall x, y | x in s && y in s && key(x) == key(y) :: x == y
  }

  lemma LastIsShared<T(!new)>(a: seq<T>, b: seq<T>, key: T -> int)
    requires a != [] && |a| == |b| && (forall x :: x in a <==> x in b)
    requires Sorted(a, key) && Sorted(b, key) && KeyDetermines(a, key)
    ensures a[|a| - 1] == b[|b| - 1]
  {
    var x, y := a[|a| - 1], b[|b| - 1];
    assert x in b && y in a;
    var i :| 0 <= i < |b| && b[i] == x;
    var j :| 0 <= j < |a| && a[j] == y;
    assert key(x) <= key(y) && key(y) <= key(x);
  }

  lemma WithoutLast<T(!new)>(a: seq<T>, key: T -> int)
    requires a != []
    ensures multiset(a[..|a| - 1]) == multiset(a) - multiset{a[|a| - 1]}
    ensures Sorted(a, key) ==> Sorted(a[..|a| - 1], key)
    ensures KeyDetermines(a, key) ==> KeyDetermines(a[..|a| - 1], key)
  {
    assert a == a[..|a| - 1] + [a[|a| - 1]];
    assert forall x | x in a[..|a| - 1] :: x in a;
  }

  lemma {:induction false} SortedIsUnique<T(!new)>(a: seq<T>, b: seq<T>, key: T -> int)
    requires Sorted(a, key) && Sorted(b, key) && multiset(a) == multiset(b) && KeyDetermines(a, key)
    ensures a == b
  {
    hide Sorted, KeyDetermines;
    SameMembers(a, b);
    if a != [] {
      LastIsShared(a, b, key);
      WithoutLast(a, key);
      WithoutLast(b, key);
      SortedIsUnique(a[..|a| - 1], b[..|a| - 1], key);
      assert a == a[..|a| - 1] + [a[|a| - 1]];
      assert b == b[..|a| - 1] + [a[|a| - 1]];
    } else {
      assert b == [];
    }
  }

  /** Sorting forgets the original order when the key tells elements apart. */
  lemma SortForgetsOrder<T(!new)>(a: seq<T>, b: seq<T>, key: T -> int)
    requires multiset(a) == multiset(b) && KeyDetermines(a, key)
    ensures SortBy(a, key) == SortBy(b, key)
  {
    SortBySorts(a, key);
    SortBySorts(b, key);
    SortByKeeps(a, key);
    SortByKeeps(b, key);
    SameMembers(SortBy(a, key), a);
    SortedIsUnique(SortBy(a, key), SortBy(b, key), key);
  }

  lemma SortByMembers<T(!new)>(s: seq<T>, key: T -> int)
    ensures Sorted(SortBy(s, key), key) && forall y :: y in SortBy(s, key) <==> y in s
  {
    SortBySorts(s, key);
    SortByKeeps(s, key);
    SameMembers(SortBy(s, key), s);
  }

  lemma InsertMembers<T(!new)>(s: seq<T>, x: T, key: T -> int)
    ensures |Insert(s, x, key)| == |s| + 1 && forall y :: y in Insert(s, x, key) <==> y in s || y == x
  {
    InsertKeeps(s, x, key);
    assert multiset(s + [x]) == multiset(s) + multiset{x};
    SameMembers(Insert(s, x, key), s + [x]);
  }

  predicate DistinctBy<T, K(==)>(s: seq<T>, id: T -> K) {
    forall i, j | 0 <= i < j < |s| :: id(s[i]) != id(s[j])
  }

  lemma {:induction false} InsertDistinct<T(!new), K>(s: seq<T>, x: T, key: T -> int, id: T -> K)
    requires DistinctBy(s, id) && forall y | y in s :: id(y) != id(x)
    ensures DistinctBy(Insert(s, x, key), id)
  {
    if s != [] && !(key(s[|s| - 1]) <= key(x)) {
      var front, last := s[..|s| - 1], s[|s| - 1];
      InsertDistinct(front, x, key, id);
      InsertMembers(front, x, key);
      var r := Insert(front, x, key);
      forall i | 0 <= i < |r|
        ensures id(r[i]) != id(last)
      {
        assert r[i] in front || r[i] == x;
      }
    }
  }

  /** Sorting keeps distinct elements distinct. */
  lemma {:induction false} SortByDistinct<T(!new), K>(s: seq<T>, key: T -> int, id: T -> K)
    requires DistinctBy(s, id)
    ensures DistinctBy(SortBy(s, key), id)
  {
    if s != [] {
      var front, x := s[..|s| - 1], s[|s| - 1];
      SortByDistinct(front, key, id);
      SortByMembers(front, key);
      forall y | y in SortBy(front, key)
        ensures id(y) != id(x)
      {
        assert y in front;
      }
      InsertDistinct(SortBy(front, key), x, key, id);
    }
  }

  // ---- overlaying ----

  /** The layers of all elements, later ones on top. */
  function Layered<T, K, V>(s: seq<T>, layer: T -> map<K, V>): map<K, V> {
    if s == [] then map[] else Layered(s[..|s| - 1], layer) + layer(s[|s| - 1])
  }

  lemma LayeredSnoc<T, K, V>(s: seq<T>, x: T, layer: T -> map<K, V>)
    ensures Layered(s + [x], layer) == Layered(s, layer) + layer(x)
  {
    assert (s + [x])[..|s|] == s;
  }

  /** `i` holds `k`, and no element after it does. */
  predicate LastHolder<T, K, V>(s: seq<T>, layer: T -> map<K, V>, k: K, i: nat) {
    i < |s| && k in layer(s[i]) && forall j | i < j < |s| :: k !in layer(s[j])
  }

  lemma {:induction false} LayeredHas<T, K, V>(s: seq<T>, layer: T -> map<K, V>, k: K)
    ensures k in Layered(s, layer) <==> exists i :: 0 <= i < |s| && k in layer(s[i])
  {
    if s != [] {
      var front, last := s[..|s| - 1], s[|s| - 1];
      LayeredHas(front, layer, k);
      if i :| 0 <= i < |front| && k in layer(front[i]) {
        assert k in layer(s[i]);
      }
      if i :| 0 <= i < |front| && k in layer(s[i]) {
        assert k in layer(front[i]);
      }
    }
  }

  lemma {:induction false} LayeredValue<T, K, V>(s: seq<T>, layer: T -> map<K, V>, k: K, i: nat)
    requires LastHolder(s, layer, k, i)
    ensures k in Layered(s, layer) && Layered(s, layer)[k] == layer(s[i])[k]
  {
    if i < |s| - 1 {
      var front := s[..|s| - 1];
      assert front[i] == s[i] && forall j | i < j < |front| :: front[j] == s[j];
      LayeredValue(front, layer, k, i);
    }
  }

  /** A key is present exactly when some element holds it, with the value of the
      last one that does. */
  lemma LastLayerWins<T, K, V>(s: seq<T>, layer: T -> map<K, V>, k: K)
    ensures k in Layered(s, layer) <==> exists i :: 0 <= i < |s| && k in layer(s[i])
    ensures forall i: nat | LastHolder(s, layer, k, i) ::
      k in Layered(s, layer) && Layered(s, layer)[k] == layer(s[i])[k]
  {
    hide Layered, LastHolder;
    LayeredHas(s, layer, k);
    forall i: nat | LastHolder(s, layer, k, i)
      ensures i < |s| && k in layer(s[i]) && k in Layered(s, layer) && Layered(s, layer)[k] == layer(s[i])[k]
    {
      LastHolderHolds(s, layer, k, i);
      LayeredValue(s, layer, k, i);
    }
  }

  lemma LastHolderHolds<T, K, V>(s: seq<T>, layer: T -> map<K, V>, k: K, i: nat)
    requires LastHolder(s, layer, k, i)
    ensures i < |s| && k in layer(s[i])
  {
  }

  /** `i` holds `k`, and every other holder has a smaller key, or the same key and
      an earlier place. */
  predicate TopHolder<T, K, V>(s: seq<T>, key: T -> int, layer: T -> map<K, V>, k: K, i: nat) {
    && i < |s| && k in layer(s[i])
    && forall j | 0 <= j < |s| && k in layer(s[j]) :: key(s[j]) < key(s[i]) || (key(s[j]) == key(s[i]) && j <= i)
  }

  /** Inserting `x` gives `k` the value of `x`, unless a holder lies above it. */
  lemma {:induction false} LayeredInsert<T(!new), K, V>(s: seq<T>, x: T, key: T -> int, layer: T -> map<K, V>, k: K)
    requires Sorted(s, key)
    ensures k in Layered(Insert(s, x, key), layer) <==> k in Layered(s, layer) || k in layer(x)
    ensures k in Layered(s, layer) && (k !in layer(x) || exists y :: y in s && k in layer(y) && key(y) > key(x)) ==>
      Layered(Insert(s, x, key), layer)[k] == Layered(s, layer)[k]
    ensures k in layer(x) && (forall y | y in s && k in layer(y) :: key(y) <= key(x)) ==>
      Layered(Insert(s, x, key), layer)[k] == layer(x)[k]
  {
    if s == [] || key(s[|s| - 1]) <= key(x) {
      LayeredSnoc(s, x, layer);
    } else {
      var front, last := s[..|s| - 1], s[|s| - 1];
      assert s == front + [last];
      LayeredInsert(front, x, key, layer, k);
      LayeredSnoc(Insert(front, x, key), last, layer);
    }
  }

  lemma TopHolderOfFront<T(!new), K, V>(s: seq<T>, key: T -> int, layer: T -> map<K, V>, k: K, i: nat)
    requires TopHolder(s, key, layer, k, i)
    ensures i < |s|
    ensures
      var front, x := s[..|s| - 1], s[|s| - 1];
      if i < |front|
      then front[i] == s[i] && TopHolder(front, key, layer, k, i) && (k in layer(x) ==> key(front[i]) > key(x))
      else k in layer(x) && forall y | y in front && k in layer(y) :: key(y) <= key(x)
  {
  }

  /** Overlaying in sorted order gives each key the value of the holder with the
      greatest key, the last of them on a tie. */
  lemma {:induction false} TopLayerWins<T(!new), K, V>(
    s: seq<T>, key: T -> int, layer: T -> map<K, V>, k: K, i: nat)
    requires TopHolder(s, key, layer, k, i)
    ensures k in Layered(SortBy(s, key), layer) && Layered(SortBy(s, key), layer)[k] == layer(s[i])[k]
  {
    hide TopHolder, Sorted, Insert, Layered;
    TopHolderOfFront(s, key, layer, k, i);
    var front, x := s[..|s| - 1], s[|s| - 1];
    SortByMembers(front, key);
    LayeredInsert(SortBy(front, key), x, key, layer, k);
    if i < |front| {
      TopLayerWins(front, key, layer, k, i);
      assert front[i] in SortBy(front, key) && k in layer(front[i]);
    }
  }

  /** Only holders contribute, and if there is one there is a top one. */
  lemma {:induction false} TopHolderExists<T, K, V>(s: seq<T>, key: T -> int, layer: T -> map<K, V>, k: K)
    returns (i: nat)
    requires exists j :: 0 <= j < |s| && k in layer(s[j])
    ensures TopHolder(s, key, layer, k, i)
  {
    var front, x := s[..|s| - 1], s[|s| - 1];
    if j :| 0 <= j < |front| && k in layer(front[j]) {
      i := TopHolderExists(front, key, layer, k);
      if k in layer(x) && key(front[i]) <= key(x) {
        i := |front|;
      }
    } else {
      i := |front|;
    }
  }

  lemma LayeredNeedsHolder<T(!new), K, V>(s: seq<T>, key: T -> int, layer: T -> map<K, V>, k: K)
    ensures k in Layered(SortBy(s, key), layer) <==> exists j :: 0 <= j < |s| && k in layer(s[j])
  {
    var t := SortBy(s, key);
    SortByKeeps(s, key);
    SameMembers(t, s);
    LastLayerWins(t, layer, k);
    if j :| 0 <= j < |t| && k in layer(t[j]) {
      assert t[j] in s;
    }
    if j :| 0 <= j < |s| && k in layer(s[j]) {
      assert s[j] in t;
    }
  }
}
