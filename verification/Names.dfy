/** Sorting names: text compares character by character, a prefix first. */
module Names {

  predicate Before(a: string, b: string) {
    b != "" && (a == "" || a[0] < b[0] || (a[0] == b[0] && Before(a[1..], b[1..])))
  }

  lemma {:induction false} BeforeIsTotal(a: string, b: string)
    ensures a == b || Before(a, b) || Before(b, a)
    ensures !(Before(a, b) && Before(b, a))
  {
    if a != "" && b != "" {
      BeforeIsTotal(a[1..], b[1..]);
      assert a == [a[0]] + a[1..] && b == [b[0]] + b[1..];
    }
  }

  lemma {:induction false} BeforeIsTransitive(a: string, b: string, c: string)
    requires Before(a, b) && Before(b, c)
    ensures Before(a, c)
  {
    if a != "" && a[0] == b[0] == c[0] {
      BeforeIsTransitive(a[1..], b[1..], c[1..]);
    }
  }

  ghost predicate IsLeast(name: string, names: set<string>) {
    name in names && forall other | other in names && other != name :: Before(name, other)
  }

  lemma {:induction false} LeastExists(names: set<string>)
    requires names != {}
    ensures exists name :: IsLeast(name, names)
  {
    var some :| some in names;
    if names == {some} {
      assert IsLeast(some, names);
    } else {
      var rest := names - {some};
      LeastExists(rest);
      var least :| IsLeast(least, rest);
      var name := if Before(some, least) then some else least;
      BeforeIsTotal(some, least);
      forall other | other in names && other != name
        ensures Before(name, other)
      {
        if other in rest && other != least && name == some {
          BeforeIsTransitive(some, least, other);
        }
      }
      assert IsLeast(name, names);
    }
  }

  lemma LeastIsUnique(a: string, b: string, names: set<string>)
    requires IsLeast(a, names) && IsLeast(b, names)
    ensures a == b
  {
    BeforeIsTotal(a, b);
  }

  /** The names in ascending order. */
  ghost function Ascending(names: set<string>): seq<string>
    decreases |names|
  {
    if names == {} then []
    else
      LeastExists(names);
      var least :| IsLeast(least, names);
      [least] + Ascending(names - {least})
  }

  /** The same names, each once, every one before all that follow it. */
  lemma {:induction false} AscendingAscends(names: set<string>)
    ensures |Ascending(names)| == |names| && forall name :: name in Ascending(names) <==> name in names
    ensures forall i, j | 0 <= i < j < |Ascending(names)| :: Before(Ascending(names)[i], Ascending(names)[j])
    decreases |names|
  {
    if names != {} {
      var sorted := Ascending(names);
      assert IsLeast(sorted[0], names) && sorted[1..] == Ascending(names - {sorted[0]}) by {
        LeastExists(names);
      }
      AscendingAscends(names - {sorted[0]});
      assert sorted == [sorted[0]] + sorted[1..];
      forall i, j | 0 <= i < j < |sorted|
        ensures Before(sorted[i], sorted[j])
      {
        assert sorted[j] == sorted[1..][j - 1];
        if i == 0 {
          assert sorted[j] in names - {sorted[0]};
        } else {
          assert sorted[i] == sorted[1..][i - 1];
        }
      }
    }
  }

  method FindLeast(names: set<string>) returns (least: string)
    requires names != {}
    ensures IsLeast(least, names)
  {
    least :| least in names;
    var left := names - {least};
    while left != {}
      invariant left <= names && least in names - left
      invariant forall other | other in names - left && other != least :: Before(least, other)
      decreases |left|
    {
      var name :| name in left;
      BeforeIsTotal(name, least);
      if Before(name, least) {
        forall other | other in names - left && other != least {
          BeforeIsTransitive(name, least, other);
        }
        least := name;
      }
      left := left - {name};
    }
  }

  method SortNames(names: set<string>) returns (sorted: seq<string>)
    ensures sorted == Ascending(names)
  {
    sorted := [];
    var left := names;
    while left != {}
      invariant sorted + Ascending(left) == Ascending(names)
      decreases |left|
    {
      var least := FindLeast(left);
      NextIsLeast(left, least);
      sorted := sorted + [least];
      left := left - {least};
    }
  }

  lemma NextIsLeast(names: set<string>, least: string)
    requires IsLeast(least, names)
    ensures Ascending(names) == [least] + Ascending(names - {least})
  {
    LeastExists(names);
    var chosen := Ascending(names)[0];
    assert IsLeast(chosen, names);
    LeastIsUnique(chosen, least, names);
  }
}
