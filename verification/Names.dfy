/** The names of a map or a set in code point order. */
module Names {
  import opened Canonical

  predicate Leads(k: string, names: set<string>) {
    k in names && forall x :: x in names ==> x == k || CodePoints.Less(k, x)
  }

  lemma OneLeads(names: set<string>, a: string, b: string)
    requires Leads(a, names) && Leads(b, names)
    ensures a == b
  {
    CodePoints.LessTotal(a, b);
  }

  lemma {:induction false} SomeLeads(names: set<string>)
    requires names != {}
    ensures exists k :: Leads(k, names)
    decreases |names|
  {
    hide Order.Less;
    var x :| x in names;
    var rest := names - {x};
    if rest == {} {
      assert names == {x} && Leads(x, names);
    } else {
      SomeLeads(rest);
      var k :| Leads(k, rest);
      CodePoints.LessTotal(k, x);
      if CodePoints.Less(k, x) {
        assert Leads(k, names);
      } else {
        forall y | y in names ensures y == x || CodePoints.Less(x, y) {
          if y != x && y != k {
            CodePoints.LessTransitive(x, k, y);
          }
        }
        assert Leads(x, names);
      }
    }
  }

  function Least(names: set<string>): (k: string)
    requires names != {}
    ensures k in names
  {
    SomeLeads(names);
    assert forall a, b :: Leads(a, names) && Leads(b, names) ==> a == b by {
      forall a, b | Leads(a, names) && Leads(b, names) ensures a == b { OneLeads(names, a, b); }
    }
    var k :| k in names && Leads(k, names);
    k
  }

  function Sorted(names: set<string>): (r: seq<string>)
    ensures |r| == |names|
    decreases |names|
  {
    if names == {} then [] else [Least(names)] + Sorted(names - {Least(names)})
  }

  /** An order of the names, each once. */
  ghost predicate Lists(order: seq<string>, names: set<string>) {
    multiset(order) == multiset(names)
  }

  lemma {:induction false} SortedLists(names: set<string>)
    ensures Lists(Sorted(names), names)
    decreases |names|
  {
    if names != {} {
      var k := Least(names);
      SortedLists(names - {k});
      assert names == {k} + (names - {k});
      assert Sorted(names) == [k] + Sorted(names - {k});
    }
  }

  lemma SortedAt(names: set<string>, i: nat)
    requires i < |names|
    ensures Sorted(names)[i] in names
  {
    SortedLists(names);
    assert Sorted(names)[i] in multiset(names);
  }
}
