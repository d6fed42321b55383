/** A set of integers as an ascending list. */
module Sorting {
  ghost predicate Ascending(s: seq<int>) {
    forall i, j :: 0 <= i < j < |s| ==> s[i] < s[j]
  }

  function Insert(s: seq<int>, x: int): (r: seq<int>)
    ensures multiset(r) == multiset(s) + multiset{x}
  {
    if s == [] then [x]
    else
      assert s == [s[0]] + s[1..];
      if x < s[0] then [x] + s else [s[0]] + Insert(s[1..], x)
  }

  lemma {:induction false} InsertAscending(s: seq<int>, x: int)
    requires Ascending(s) && x !in s
    ensures Ascending(Insert(s, x))
    decreases |s|
  {
    if s != [] && x > s[0] {
      InsertAscending(s[1..], x);
      InsertAbove(s[1..], x, s[0]);
    }
  }

  lemma InsertAbove(s: seq<int>, x: int, low: int)
    requires x > low && forall k :: 0 <= k < |s| ==> s[k] > low
    ensures forall k :: 0 <= k < |Insert(s, x)| ==> Insert(s, x)[k] > low
  {
    var r := Insert(s, x);
    forall k | 0 <= k < |r| ensures r[k] > low {
      assert r[k] in multiset(r);
    }
  }

  lemma SomeMember<T>(s: set<T>) returns (x: T)
    requires s != {}
    ensures x in s
  {
    x :| x in s;
  }

  method SortSet(s: set<int>) returns (r: seq<int>)
    ensures Ascending(r) && (forall x :: x in r <==> x in s) && |r| == |s|
  {
    r := [];
    var rest := s;
    while rest != {}
      invariant rest <= s && Ascending(r) && |r| + |rest| == |s|
      invariant forall x :: x in r <==> x in s && x !in rest
    {
      ghost var member := SomeMember(rest);
      var x :| x in rest;
      ghost var before := r;
      InsertAscending(r, x);
      r := Insert(r, x);
      rest := rest - {x};
      assert |r| == |multiset(r)| == |before| + 1;
      forall y ensures y in r <==> y in before || y == x {
        assert y in r <==> y in multiset(r);
        assert y in before <==> y in multiset(before);
      }
    }
  }
}
