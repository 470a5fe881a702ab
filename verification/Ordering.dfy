/**
 The order every fetch asks for: by time, ties broken by id.

 A fetch is described by a finite map from the ids it may take to the time it
 orders them by. Sorted lists those ids; it is fixed by the map alone, so which
 rows a limited fetch picks never depends on the order a hash table is walked in.
 */
module Ordering {

  ghost predicate Distinct<T>(s: seq<T>) {
    forall i, j | 0 <= i < j < |s| :: s[i] != s[j]
  }

  predicate Precedes(key: map<int, int>, a: int, b: int)
    requires a in key && b in key
  {
    key[a] < key[b] || (key[a] == key[b] && a < b)
  }

  ghost predicate Within(key: map<int, int>, ids: seq<int>) {
    forall i | 0 <= i < |ids| :: ids[i] in key
  }

  ghost predicate Ordered(key: map<int, int>, ids: seq<int>) {
    && Within(key, ids)
    && forall i, j | 0 <= i < j < |ids| :: Precedes(key, ids[i], ids[j])
  }

  /** ids is the map's key set, least (time, id) first. */
  ghost predicate Lists(key: map<int, int>, ids: seq<int>) {
    Ordered(key, ids) && forall x | x in key :: x in ids
  }

  ghost function Elems(ids: seq<int>): set<int> {
    set x | x in ids
  }

  ghost predicate IsLeast(key: map<int, int>, m: int) {
    m in key && forall x | x in key :: x == m || Precedes(key, m, x)
  }

  lemma SomeElement(s: set<int>)
    requires s != {}
    ensures exists x :: x in s
  {
    assert (forall x :: x !in s) ==> s == {};
  }

  lemma {:induction false} LeastExists(key: map<int, int>)
    requires |key| > 0
    ensures exists m :: IsLeast(key, m)
    decreases |key|
  {
    SomeElement(key.Keys);
    var k :| k in key;
    var rest := key - {k};
    assert rest.Keys == key.Keys - {k};
    if |rest| == 0 {
      assert rest.Keys == {};
      assert forall x | x in key :: x == k || x in rest;
      assert IsLeast(key, k);
    } else {
      LeastExists(rest);
      var m :| IsLeast(rest, m);
      var least := if Precedes(key, k, m) then k else m;
      forall x | x in key ensures x == least || Precedes(key, least, x) {
        assert x == k || x in rest;
      }
      assert IsLeast(key, least);
    }
  }

  /** The keys of a finite map, least (time, id) first. */
  ghost function Sorted(key: map<int, int>): (ids: seq<int>)
    ensures Lists(key, ids)
    ensures |ids| == |key|
    decreases |key|
  {
    if |key| == 0 then
      assert key.Keys == {};
      []
    else
      LeastExists(key);
      var m :| IsLeast(key, m);
      assert (key - {m}).Keys == key.Keys - {m};
      var ids := [m] + Sorted(key - {m});
      ConsLists(key, m, Sorted(key - {m}));
      ids
  }

  lemma ConsLists(key: map<int, int>, m: int, rest: seq<int>)
    requires IsLeast(key, m) && Lists(key - {m}, rest)
    ensures Lists(key, [m] + rest)
  {
  }

  lemma TailLists(key: map<int, int>, ids: seq<int>)
    requires Lists(key, ids) && ids != []
    ensures IsLeast(key, ids[0]) && Lists(key - {ids[0]}, ids[1..])
  {
  }

  lemma {:induction false} DistinctSize(key: map<int, int>, ids: seq<int>)
    requires Ordered(key, ids)
    ensures |Elems(ids)| == |ids|
    decreases |ids|
  {
    if ids != [] {
      var n := |ids| - 1;
      var init := ids[..n];
      DistinctSize(key, init);
      assert Elems(ids) == Elems(init) + {ids[n]} by { assert ids == init + [ids[n]]; }
      assert forall i | 0 <= i < n :: Precedes(key, init[i], ids[n]);
      assert ids[n] !in init;
    }
  }

  lemma ListsSize(key: map<int, int>, ids: seq<int>)
    requires Lists(key, ids)
    ensures |ids| == |key|
  {
    DistinctSize(key, ids);
    forall x ensures x in Elems(ids) <==> x in key.Keys {
      assert x in key ==> x in ids;
    }
    assert Elems(ids) == key.Keys;
  }

  /** Only one sequence lists a map in order. */
  lemma {:induction false} OneListing(key: map<int, int>, a: seq<int>, b: seq<int>)
    requires Lists(key, a) && Lists(key, b)
    ensures a == b
    decreases |a|
  {
    if a == [] {
      ListsSize(key, a);
      ListsSize(key, b);
    } else {
      TailLists(key, a);
      assert b != [];
      TailLists(key, b);
      OneListing(key - {a[0]}, a[1..], b[1..]);
    }
  }

  lemma SuffixLists(key: map<int, int>, ids: seq<int>, k: nat)
    requires Lists(key, ids) && k <= |ids|
    ensures Lists(key - Elems(ids[..k]), ids[k..])
  {
  }

  /** Taking a prefix away from the map takes it away from the listing. */
  lemma SortedAfterPrefix(key: map<int, int>, k: nat)
    requires k <= |key|
    ensures Sorted(key - Elems(Sorted(key)[..k])) == Sorted(key)[k..]
  {
    var ids := Sorted(key);
    var less := key - Elems(ids[..k]);
    SuffixLists(key, ids, k);
    OneListing(less, Sorted(less), ids[k..]);
  }

  /** The ids strictly ahead of x. */
  function Ahead(key: map<int, int>, x: int): set<int>
    requires x in key
  {
    set y | y in key && Precedes(key, y, x)
  }

  lemma PositionsAhead(key: map<int, int>, ids: seq<int>, i: nat, y: int)
    requires Lists(key, ids) && i < |ids|
    ensures y in Ahead(key, ids[i]) <==> y in ids[..i]
  {
  }

  /** Position in the listing counts the ids ahead: the rank a LIMIT cuts on. */
  lemma RankIsPosition(key: map<int, int>, i: nat)
    requires i < |key|
    ensures |Ahead(key, Sorted(key)[i])| == i
  {
    var ids := Sorted(key);
    forall y ensures y in Ahead(key, ids[i]) <==> y in Elems(ids[..i]) {
      PositionsAhead(key, ids, i, y);
    }
    assert Ahead(key, ids[i]) == Elems(ids[..i]);
    DistinctSize(key, ids[..i]);
  }

  lemma PlacedOrdered(key: map<int, int>, ids: seq<int>, p: nat, x: int)
    requires x in key && Ordered(key, ids) && p <= |ids|
    requires forall i | 0 <= i < p :: Precedes(key, ids[i], x)
    requires p < |ids| ==> Precedes(key, x, ids[p])
    ensures Ordered(key, ids[..p] + [x] + ids[p..])
  {
  }

  /** Collecting the ids in any order at all and sorting them gives Sorted. */
  method SortIds(key: map<int, int>) returns (ids: seq<int>)
    ensures ids == Sorted(key)
  {
    ids := [];
    var todo := key.Keys;
    while todo != {}
      invariant todo <= key.Keys
      invariant Ordered(key, ids)
      invariant forall x | x in key :: x in todo <==> x !in ids
    {
      SomeElement(todo);
      var x :| x in todo;
      ids := Place(key, ids, x);
      todo := todo - {x};
    }
    OneListing(key, ids, Sorted(key));
  }

  method Place(key: map<int, int>, ids: seq<int>, x: int) returns (r: seq<int>)
    requires x in key && x !in ids && Ordered(key, ids)
    ensures Ordered(key, r)
    ensures forall y :: y in r <==> y == x || y in ids
  {
    var p := 0;
    while p < |ids| && Precedes(key, ids[p], x)
      invariant 0 <= p <= |ids|
      invariant forall i | 0 <= i < p :: Precedes(key, ids[i], x)
    {
      p := p + 1;
    }
    PlacedOrdered(key, ids, p, x);
    r := ids[..p] + [x] + ids[p..];
    assert ids == ids[..p] + ids[p..];
  }
}
