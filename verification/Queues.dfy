/**
 Which queue a fetch round tries first: weighted sampling without replacement, in
 place, with swap-removal. Draws come from outside; each lies below the running total.
 */
module Queues {
  import opened Ordering

  const MAX_WEIGHT := 100_000
  const MAX_INT64 := 0x7fff_ffff_ffff_ffff

  datatype Weighted<N> = Weighted(name: N, weight: int)

  ghost predicate Weighed<N>(s: seq<Weighted<N>>) {
    forall i | 0 <= i < |s| :: 1 <= s[i].weight <= MAX_WEIGHT
  }

  ghost function Total<N>(s: seq<Weighted<N>>): int {
    if s == [] then 0 else Total(s[..|s| - 1]) + s[|s| - 1].weight
  }

  /** The running total stays positive and far inside int64. */
  lemma {:induction false} TotalBounds<N>(s: seq<Weighted<N>>)
    requires Weighed(s)
    ensures |s| <= Total(s) <= MAX_WEIGHT * |s|
    ensures |s| <= MAX_INT64 / MAX_WEIGHT ==> Total(s) <= MAX_INT64
    decreases |s|
  {
    if s != [] {
      TotalBounds(s[..|s| - 1]);
    }
  }

  lemma {:induction false} PrefixesRise<N>(s: seq<Weighted<N>>, i: nat, j: nat)
    requires Weighed(s) && i <= j <= |s|
    ensures Total(s[..i]) + (j - i) <= Total(s[..j])
    decreases j - i
  {
    if i < j {
      PrefixesRise(s, i, j - 1);
      assert s[..j][..j - 1] == s[..j - 1];
    }
  }

  ghost predicate Lands<N>(s: seq<Weighted<N>>, d: int, i: nat)
    requires i < |s|
  {
    Total(s[..i]) <= d < Total(s[..i + 1])
  }

  /** The queue whose share of [0, total) the draw falls in. */
  ghost function Chosen<N>(s: seq<Weighted<N>>, d: int): (i: nat)
    requires Weighed(s) && 0 <= d < Total(s)
    ensures i < |s| && Lands(s, d, i)
    decreases |s|
  {
    var n := |s| - 1;
    assert s[..n + 1] == s;
    if d >= Total(s[..n]) then n
    else
      var i := Chosen(s[..n], d);
      assert s[..n][..i] == s[..i] && s[..n][..i + 1] == s[..i + 1];
      i
  }

  lemma OneLanding<N>(s: seq<Weighted<N>>, d: int, i: nat)
    requires Weighed(s) && i < |s| && Lands(s, d, i)
    ensures 0 <= d < Total(s) && Chosen(s, d) == i
  {
    PrefixesRise(s, 0, i);
    PrefixesRise(s, i + 1, |s|);
    assert s[..|s|] == s;
    var j := Chosen(s, d);
    assert j < i || j > i || j == i;
    if j < i {
      PrefixesRise(s, j + 1, i);
    } else if j > i {
      PrefixesRise(s, i + 1, j);
    }
  }

  /** What is left once index i is picked: the last queue takes its place. */
  function Removed<N>(s: seq<Weighted<N>>, i: nat): seq<Weighted<N>>
    requires i < |s|
  {
    s[i := s[|s| - 1]][..|s| - 1]
  }

  lemma {:induction false} TotalUpdate<N>(s: seq<Weighted<N>>, i: nat, q: Weighted<N>)
    requires i < |s|
    ensures Total(s[i := q]) == Total(s) - s[i].weight + q.weight
    decreases |s|
  {
    var n := |s| - 1;
    if i < n {
      TotalUpdate(s[..n], i, q);
      assert s[i := q][..n] == s[..n][i := q];
    } else {
      assert s[i := q][..n] == s[..n];
    }
  }

  /** Picking a queue takes exactly its weight off the total. */
  lemma TotalRemoved<N>(s: seq<Weighted<N>>, i: nat)
    requires i < |s|
    ensures Total(Removed(s, i)) == Total(s) - s[i].weight
  {
    TotalUpdate(s, i, s[|s| - 1]);
  }

  lemma RemovedWeighed<N>(s: seq<Weighted<N>>, i: nat)
    requires i < |s| && Weighed(s)
    ensures Weighed(Removed(s, i)) && |Removed(s, i)| == |s| - 1
  {
  }

  /** One in-range draw for each queue still to be placed. */
  ghost predicate InRange<N>(s: seq<Weighted<N>>, draws: seq<int>)
    requires Weighed(s)
    decreases |s|
  {
    && |draws| == |s|
    && (s != [] ==>
          && 0 <= draws[0] < Total(s)
          && InRange(Removed(s, Chosen(s, draws[0])), draws[1..]))
  }

  ghost function Order<N>(s: seq<Weighted<N>>, draws: seq<int>): (order: seq<N>)
    requires Weighed(s) && InRange(s, draws)
    ensures |order| == |s|
    decreases |s|
  {
    if s == [] then [] else
      var i := Chosen(s, draws[0]);
      [s[i].name] + Order(Removed(s, i), draws[1..])
  }

  ghost function NamesOf<N>(s: seq<Weighted<N>>): seq<N> {
    seq(|s|, i requires 0 <= i < |s| => s[i].name)
  }

  lemma Rearranged<T>(a: seq<T>, b: seq<T>, x: T, y: T)
    ensures multiset(a + [x] + b + [y]) == multiset{x} + multiset(a + [y] + b)
  {
  }

  lemma SwapRemoved<T>(s: seq<T>, i: nat)
    requires i < |s|
    ensures multiset(s) == multiset{s[i]} + multiset(s[i := s[|s| - 1]][..|s| - 1])
  {
    var n := |s| - 1;
    if i == n {
      assert s[i := s[n]][..n] == s[..n];
      assert s == s[..n] + [s[n]];
    } else {
      var a, b := s[..i], s[i + 1..n];
      assert s[i := s[n]][..n] == a + [s[n]] + b;
      assert s == a + [s[i]] + b + [s[n]];
      Rearranged(a, b, s[i], s[n]);
    }
  }

  lemma NamesRemoved<N>(s: seq<Weighted<N>>, i: nat)
    requires i < |s|
    ensures multiset(NamesOf(s)) == multiset{s[i].name} + multiset(NamesOf(Removed(s, i)))
  {
    var names, n := NamesOf(s), |s| - 1;
    SwapRemoved(names, i);
    assert NamesOf(Removed(s, i)) == names[i := names[n]][..n];
  }

  /** The order lists every queue exactly once. */
  lemma {:induction false} OrderIsPermutation<N>(s: seq<Weighted<N>>, draws: seq<int>)
    requires Weighed(s) && InRange(s, draws)
    ensures multiset(Order(s, draws)) == multiset(NamesOf(s))
    decreases |s|
  {
    if s != [] {
      var i := Chosen(s, draws[0]);
      OrderIsPermutation(Removed(s, i), draws[1..]);
      NamesRemoved(s, i);
    }
  }

  // ----------------------------------------------------------- distribution

  ghost predicate DistinctNames<N>(s: seq<Weighted<N>>) {
    forall i, j | 0 <= i < j < |s| :: s[i].name != s[j].name
  }

  ghost function Below(lo: int, hi: int): (s: set<int>)
    requires lo <= hi
    ensures |s| == hi - lo
    ensures forall x :: x in s <==> lo <= x < hi
    decreases hi - lo
  {
    if lo == hi then {} else Below(lo, hi - 1) + {hi - 1}
  }

  /** The draws that pick the queue named q, wherever it stands. */
  ghost function DrawsFor<N>(s: seq<Weighted<N>>, q: N): set<int>
    requires Weighed(s)
  {
    set d | 0 <= d < Total(s) && s[Chosen(s, d)].name == q
  }

  /** Exactly weight-many draws pick a given queue, however the queues are arranged. */
  lemma ExactShare<N>(s: seq<Weighted<N>>, i: nat)
    requires Weighed(s) && DistinctNames(s) && i < |s|
    ensures |DrawsFor(s, s[i].name)| == s[i].weight
    ensures forall d :: d in DrawsFor(s, s[i].name) <==> 0 <= d < Total(s) && Chosen(s, d) == i
  {
    var lo, hi := Total(s[..i]), Total(s[..i + 1]);
    assert s[..i + 1][..i] == s[..i];
    forall d ensures d in DrawsFor(s, s[i].name) <==> d in Below(lo, hi) {
      if lo <= d < hi {
        OneLanding(s, d, i);
      }
    }
    assert DrawsFor(s, s[i].name) == Below(lo, hi);
  }

  /**
   The chance that uniform draws come out as order: the average, over every draw below the
   total, of the chance that the rest follows.
   */
  ghost function Chance<N>(s: seq<Weighted<N>>, order: seq<N>): real
    requires Weighed(s) && |order| == |s|
    decreases |s|, 1, 0
  {
    if s == [] then 1.0 else
      TotalBounds(s);
      Favour(s, order, Total(s)) / Total(s) as real
  }

  /** Draws below k that pick order's first queue, each weighed by the chance the rest follows. */
  ghost function Favour<N>(s: seq<Weighted<N>>, order: seq<N>, k: nat): real
    requires Weighed(s) && |order| == |s| > 0 && k <= Total(s)
    decreases |s|, 0, k
  {
    if k == 0 then 0.0 else
      var i := Chosen(s, k - 1);
      Favour(s, order, k - 1) + if s[i].name == order[0] then Chance(Removed(s, i), order[1..]) else 0.0
  }

  /** How many of the draws below k lie in [lo, hi). */
  function Overlap(lo: int, hi: int, k: int): int {
    if k <= lo then 0 else if k <= hi then k - lo else hi - lo
  }

  function Times(n: int, c: real): real {
    n as real * c
  }

  lemma OneMoreTime(n: int, c: real)
    ensures Times(n + 1, c) == Times(n, c) + c && Times(0, c) == 0.0
  {
  }

  lemma ShareOf<N>(s: seq<Weighted<N>>, i: nat)
    requires Weighed(s) && i < |s|
    ensures 0 <= Total(s[..i]) && Total(s[..i + 1]) == Total(s[..i]) + s[i].weight
    ensures 0 < Total(s[..i + 1]) <= Total(s)
  {
    PrefixesRise(s, 0, i);
    PrefixesRise(s, i + 1, |s|);
    assert s[..|s|] == s && s[..i + 1][..i] == s[..i];
  }

  lemma {:induction false} FavourCounts<N>(s: seq<Weighted<N>>, order: seq<N>, i: nat, k: nat)
    requires Weighed(s) && DistinctNames(s) && |order| == |s| && i < |s| && s[i].name == order[0] && k <= Total(s)
    ensures Favour(s, order, k)
         == Times(Overlap(Total(s[..i]), Total(s[..i + 1]), k), Chance(Removed(s, i), order[1..]))
    decreases k
  {
    hide Chance, Removed, Times, Total;
    ShareOf(s, i);
    RemovedWeighed(s, i);
    var lo, hi, c := Total(s[..i]), Total(s[..i + 1]), Chance(Removed(s, i), order[1..]);
    if k == 0 {
      OneMoreTime(0, c);
    } else {
      FavourCounts(s, order, i, k - 1);
      var j := Chosen(s, k - 1);
      assert j != i ==> s[j].name != order[0];
      if lo <= k - 1 < hi {
        OneLanding(s, k - 1, i);
        OneMoreTime(Overlap(lo, hi, k - 1), c);
      }
    }
  }

  lemma AllFavour<N>(s: seq<Weighted<N>>, order: seq<N>, i: nat)
    requires Weighed(s) && DistinctNames(s) && |order| == |s| && i < |s| && s[i].name == order[0]
    ensures Total(s) > 0
    ensures Favour(s, order, Total(s)) == Times(s[i].weight, Chance(Removed(s, i), order[1..]))
  {
    hide Chance, Removed, Times, Favour, Total;
    ShareOf(s, i);
    RemovedWeighed(s, i);
    FavourCounts(s, order, i, Total(s));
  }

  /** The first queue is picked with its weight over the total, whatever index it stands at. */
  lemma ChanceStep<N>(s: seq<Weighted<N>>, order: seq<N>, i: nat)
    requires Weighed(s) && DistinctNames(s) && |order| == |s| && i < |s| && s[i].name == order[0]
    ensures Total(s) > 0
    ensures Chance(s, order) == (s[i].weight as real / Total(s) as real) * Chance(Removed(s, i), order[1..])
  {
    hide Total, Favour, Removed;
    RemovedWeighed(s, i);
    AllFavour(s, order, i);
    Regroup(s[i].weight, Total(s), Chance(Removed(s, i), order[1..]));
  }

  lemma Regroup(w: int, t: int, c: real)
    requires t > 0
    ensures Times(w, c) / t as real == (w as real / t as real) * c
  {
  }

  /** s is some arrangement of exactly the queues in order, at the weights w gives them. */
  ghost predicate Arranges<N>(s: seq<Weighted<N>>, order: seq<N>, w: map<N, int>) {
    && multiset(NamesOf(s)) == multiset(order)
    && forall i | 0 <= i < |s| :: s[i].name in w && w[s[i].name] == s[i].weight
  }

  ghost function Mass<N>(order: seq<N>, w: map<N, int>): int {
    if order == [] then 0 else (if order[0] in w then w[order[0]] else 0) + Mass(order[1..], w)
  }

  /** The fraction a/m of x. */
  function Share(a: int, m: int, x: real): real
    requires m != 0
  {
    (a as real / m as real) * x
  }

  /** Each position is its queue's weight over the weight of everything not yet placed. */
  ghost function Shares<N>(order: seq<N>, w: map<N, int>): real {
    if order == [] then 1.0
    else if order[0] !in w || Mass(order, w) == 0 then 0.0
    else Share(w[order[0]], Mass(order, w), Shares(order[1..], w))
  }

  lemma FirstIndex<N(!new)>(s: seq<Weighted<N>>, order: seq<N>, w: map<N, int>) returns (i: nat)
    requires Arranges(s, order, w) && DistinctNames(s) && order != []
    ensures |s| == |order| && i < |s| && s[i].name == order[0]
    ensures order[0] in w && w[order[0]] == s[i].weight
    ensures Arranges(Removed(s, i), order[1..], w) && DistinctNames(Removed(s, i))
  {
    i := IndexOf(s, order);
    NamesRemoved(s, i);
    assert multiset(order) == multiset{order[0]} + multiset(order[1..]) by {
      assert order == [order[0]] + order[1..];
    }
    CancelOne(order[0], multiset(NamesOf(Removed(s, i))), multiset(order[1..]));
    hide NamesOf;
  }

  lemma IndexOf<N>(s: seq<Weighted<N>>, order: seq<N>) returns (i: nat)
    requires multiset(NamesOf(s)) == multiset(order) && order != []
    ensures |s| == |order| && i < |s| && s[i].name == order[0]
  {
    assert |multiset(NamesOf(s))| == |multiset(order)|;
    assert order[0] in multiset(order);
    i :| 0 <= i < |s| && NamesOf(s)[i] == order[0];
  }

  lemma CancelOne<T(!new)>(x: T, a: multiset<T>, b: multiset<T>)
    requires multiset{x} + a == multiset{x} + b
    ensures a == b
  {
    forall e: T ensures a[e] == b[e] {
      assert (multiset{x} + a)[e] == (multiset{x} + b)[e];
    }
  }

  lemma {:induction false} MassIsTotal<N(!new)>(s: seq<Weighted<N>>, order: seq<N>, w: map<N, int>)
    requires Arranges(s, order, w) && DistinctNames(s)
    ensures |s| == |order| && Mass(order, w) == Total(s)
    decreases |order|
  {
    if order == [] {
      assert |multiset(NamesOf(s))| == 0;
    } else {
      var i := FirstIndex(s, order, w);
      MassIsTotal(Removed(s, i), order[1..], w);
      TotalRemoved(s, i);
    }
  }

  /** The order is drawn with exactly its weighted chance, independent of how the queues are arranged. */
  lemma {:induction false} WeightedWithoutReplacement<N(!new)>(s: seq<Weighted<N>>, order: seq<N>, w: map<N, int>)
    requires Weighed(s) && DistinctNames(s) && Arranges(s, order, w)
    ensures |order| == |s| && Chance(s, order) == Shares(order, w)
    decreases |s|
  {
    hide Arranges, DistinctNames;
    MassIsTotal(s, order, w);
    if order != [] {
      var i := FirstIndex(s, order, w);
      WeightedWithoutReplacement(Removed(s, i), order[1..], w);
      ChanceStep(s, order, i);
    }
  }

  // ------------------------------------------------------- counting draw sequences

  /** The draw sequences that come out as the given order. */
  ghost function Ways<N>(s: seq<Weighted<N>>, order: seq<N>): set<seq<int>>
    requires Weighed(s) && |order| == |s|
    decreases |s|
  {
    if s == [] then {[]}
    else set d, rest | d in DrawsFor(s, order[0]) && rest in Ways(Removed(s, Chosen(s, d)), order[1..]) :: [d] + rest
  }

  lemma {:induction false} WaysAreDraws<N>(s: seq<Weighted<N>>, order: seq<N>, draws: seq<int>)
    requires Weighed(s) && |order| == |s|
    ensures draws in Ways(s, order) <==> InRange(s, draws) && Order(s, draws) == order
    decreases |s|
  {
    if s != [] && draws != [] {
      assert draws == [draws[0]] + draws[1..];
      if 0 <= draws[0] < Total(s) {
        WaysAreDraws(Removed(s, Chosen(s, draws[0])), order[1..], draws[1..]);
        assert order == [order[0]] + order[1..];
      }
    }
  }

  ghost function Prefixed(d: int, tails: set<seq<int>>): set<seq<int>> {
    set rest | rest in tails :: [d] + rest
  }

  ghost function Pairs(heads: set<int>, tails: set<seq<int>>): set<seq<int>> {
    set d, rest | d in heads && rest in tails :: [d] + rest
  }

  lemma InPrefixed(d: int, tails: set<seq<int>>, x: seq<int>)
    ensures x in Prefixed(d, tails) <==> x != [] && x[0] == d && x[1..] in tails
  {
    if x != [] && x[0] == d && x[1..] in tails {
      assert x == [d] + x[1..];
    }
  }

  lemma InPairs(heads: set<int>, tails: set<seq<int>>, x: seq<int>)
    ensures x in Pairs(heads, tails) <==> x != [] && x[0] in heads && x[1..] in tails
  {
    if x != [] && x[0] in heads && x[1..] in tails {
      var d, rest := x[0], x[1..];
      assert d in heads && rest in tails && x == [d] + rest;
    }
  }

  lemma {:induction false} PrefixedSize(d: int, tails: set<seq<int>>)
    ensures |Prefixed(d, tails)| == |tails|
    decreases |tails|
  {
    if tails != {} {
      var x :| x in tails;
      PrefixedSize(d, tails - {x});
      forall y ensures y in Prefixed(d, tails) <==> y == [d] + x || y in Prefixed(d, tails - {x}) {
        InPrefixed(d, tails, y);
        InPrefixed(d, tails - {x}, y);
      }
      assert Prefixed(d, tails) == Prefixed(d, tails - {x}) + {[d] + x};
      InPrefixed(d, tails - {x}, [d] + x);
    }
  }

  function Mul(a: int, b: int): int {
    a * b
  }

  lemma OneRowMore(m: nat, n: nat)
    ensures Mul(m + 1, n) == Mul(m, n) + n && Mul(0, n) == 0
  {
  }

  lemma DisjointSize(a: set<seq<int>>, b: set<seq<int>>)
    requires a !! b
    ensures |a + b| == |a| + |b|
  {
  }

  lemma PairsSplit(heads: set<int>, tails: set<seq<int>>, d: int)
    requires d in heads
    ensures Pairs(heads, tails) == Prefixed(d, tails) + Pairs(heads - {d}, tails)
    ensures Prefixed(d, tails) !! Pairs(heads - {d}, tails)
  {
    hide Pairs, Prefixed;
    forall y
      ensures y in Pairs(heads, tails) <==> y in Prefixed(d, tails) || y in Pairs(heads - {d}, tails)
      ensures !(y in Prefixed(d, tails) && y in Pairs(heads - {d}, tails))
    {
      InPrefixed(d, tails, y);
      InPairs(heads, tails, y);
      InPairs(heads - {d}, tails, y);
    }
  }

  lemma {:induction false} PairsSize(heads: set<int>, tails: set<seq<int>>)
    ensures |Pairs(heads, tails)| == Mul(|heads|, |tails|)
    decreases |heads|
  {
    hide Mul;
    OneRowMore(0, |tails|);
    if heads == {} {
      assert Pairs(heads, tails) == {};
    } else {
      hide Pairs, Prefixed;
      SomeElement(heads);
      var d :| d in heads;
      var rest := heads - {d};
      PairsSize(rest, tails);
      PrefixedSize(d, tails);
      PairsSplit(heads, tails, d);
      OneRowMore(|rest|, |tails|);
      DisjointSize(Prefixed(d, tails), Pairs(rest, tails));
      assert |heads| == |rest| + 1;
    }
  }

  lemma WaysStep<N>(s: seq<Weighted<N>>, order: seq<N>, i: nat)
    requires Weighed(s) && DistinctNames(s) && |order| == |s| && i < |s| && s[i].name == order[0]
    ensures |Ways(s, order)| == Mul(s[i].weight, |Ways(Removed(s, i), order[1..])|)
  {
    ExactShare(s, i);
    var heads, tails := DrawsFor(s, order[0]), Ways(Removed(s, i), order[1..]);
    hide DrawsFor, Removed;
    forall x ensures x in Ways(s, order) <==> x in Pairs(heads, tails) {
      if x in Ways(s, order) {
        var d, rest :| d in heads && rest in Ways(Removed(s, Chosen(s, d)), order[1..]) && x == [d] + rest;
        assert Chosen(s, d) == i && rest in tails;
      }
      if x in Pairs(heads, tails) {
        var d, rest :| d in heads && rest in tails && x == [d] + rest;
        assert Chosen(s, d) == i;
      }
    }
    assert Ways(s, order) == Pairs(heads, tails);
    PairsSize(heads, tails);
  }

  /** The product of the weights, in any order. */
  ghost function Product<N>(order: seq<N>, w: map<N, int>): int {
    if order == [] then 1 else Mul(if order[0] in w then w[order[0]] else 0, Product(order[1..], w))
  }

  /** Exactly as many draw sequences come out as a given order as its weights multiply to. */
  lemma {:induction false} OrderIsDrawnProductWays<N(!new)>(s: seq<Weighted<N>>, order: seq<N>, w: map<N, int>)
    requires Weighed(s) && DistinctNames(s) && Arranges(s, order, w)
    ensures |order| == |s| && |Ways(s, order)| == Product(order, w)
    decreases |s|
  {
    hide Arranges, DistinctNames;
    MassIsTotal(s, order, w);
    if order != [] {
      var i := FirstIndex(s, order, w);
      OrderIsDrawnProductWays(Removed(s, i), order[1..], w);
      WaysStep(s, order, i);
    }
  }

  /** The product of the totals drawn from, the queues of order taken off one by one. */
  ghost function Draws<N>(order: seq<N>, w: map<N, int>): int {
    if order == [] then 1 else Mul(Mass(order, w), Draws(order[1..], w))
  }

  lemma {:induction false} SharesCount<N(!new)>(s: seq<Weighted<N>>, order: seq<N>, w: map<N, int>)
    requires Weighed(s) && DistinctNames(s) && Arranges(s, order, w)
    ensures Draws(order, w) > 0 && Times(Draws(order, w), Shares(order, w)) == Product(order, w) as real
    decreases |order|
  {
    hide Arranges, DistinctNames;
    MassIsTotal(s, order, w);
    if order != [] {
      TotalBounds(s);
      hide Total, Mass, Times, Mul, Share;
      var i := FirstIndex(s, order, w);
      SharesCount(Removed(s, i), order[1..], w);
      FractionStep(w[order[0]], Mass(order, w), Draws(order[1..], w), Product(order[1..], w), Shares(order[1..], w));
    }
  }

  lemma FractionStep(a: int, m: int, d: int, p: int, x: real)
    requires m > 0 && d > 0 && Times(d, x) == p as real
    ensures Mul(m, d) > 0 && Times(Mul(m, d), Share(a, m, x)) == Mul(a, p) as real
  {
    var q := a as real / m as real;
    assert q * m as real == a as real;
    assert (m * d) as real == m as real * d as real;
    assert (a * p) as real == a as real * p as real;
    assert q * x * (m as real * d as real) == (q * m as real) * (x * d as real);
  }

  /** The chance of an order is the share of draw sequences that come out as it. */
  lemma ChanceIsShareOfDraws<N(!new)>(s: seq<Weighted<N>>, order: seq<N>, w: map<N, int>)
    requires Weighed(s) && DistinctNames(s) && Arranges(s, order, w)
    ensures |order| == |s| && Draws(order, w) > 0
    ensures Chance(s, order) == |Ways(s, order)| as real / Draws(order, w) as real
  {
    WeightedWithoutReplacement(s, order, w);
    OrderIsDrawnProductWays(s, order, w);
    SharesCount(s, order, w);
    hide Shares, Product, Draws, Ways, Chance;
    DivideOut(Draws(order, w), Shares(order, w), Product(order, w));
  }

  lemma DivideOut(d: int, x: real, p: int)
    requires d > 0 && Times(d, x) == p as real
    ensures x == p as real / d as real
  {
  }
}
