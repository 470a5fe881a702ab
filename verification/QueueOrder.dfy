/** The fetch loop's queues: the configured set made usable, and one round's order drawn in place. */
module QueueOrder {
  import opened Jobs
  import opened Queues
  import O = Ordering
  import R = ClaimRound
  import S = JobStore
  import I = Inflight
  import W = Disposal

  const DEFAULT_QUEUE := "default"

  // ------------------------------------------------------------ configuration

  predicate Less(a: string, b: string)
    decreases |a|
  {
    b != [] && (a == [] || a[0] < b[0] || (a[0] == b[0] && Less(a[1..], b[1..])))
  }

  lemma {:induction false} LessTotal(a: string, b: string)
    ensures a == b || Less(a, b) || Less(b, a)
    ensures !(Less(a, b) && Less(b, a)) && !Less(a, a)
    decreases |a|
  {
    if a != [] && b != [] {
      LessTotal(a[1..], b[1..]);
      assert a == [a[0]] + a[1..] && b == [b[0]] + b[1..];
    }
    if a != [] {
      LessTotal(a[1..], a[1..]);
    }
  }

  lemma {:induction false} LessTransitive(a: string, b: string, c: string)
    requires Less(a, b) && Less(b, c)
    ensures Less(a, c)
    decreases |a|
  {
    if a != [] && a[0] == b[0] && b[0] == c[0] {
      LessTransitive(a[1..], b[1..], c[1..]);
    }
  }

  /** b first differs from a at k, where it goes on or is greater. */
  ghost predicate DiffersAt(a: string, b: string, k: int) {
    0 <= k <= |a| && k < |b| && a[..k] == b[..k] && (k == |a| || a[k] < b[k])
  }

  /** The order is that of a dictionary. */
  lemma {:induction false} LessIsLexicographic(a: string, b: string)
    ensures Less(a, b) <==> exists k :: DiffersAt(a, b, k)
    decreases |a|
  {
    if b != [] && (a == [] || a[0] < b[0]) {
      assert DiffersAt(a, b, 0);
    } else if a != [] && b != [] && a[0] == b[0] {
      LessIsLexicographic(a[1..], b[1..]);
      if k :| DiffersAt(a[1..], b[1..], k) {
        assert a[..k + 1] == [a[0]] + a[1..][..k] && b[..k + 1] == [b[0]] + b[1..][..k];
        assert DiffersAt(a, b, k + 1);
      }
      if k :| DiffersAt(a, b, k) {
        assert a[1..][..k - 1] == a[..k][1..] && b[1..][..k - 1] == b[..k][1..];
        assert DiffersAt(a[1..], b[1..], k - 1);
      }
    }
  }

  ghost predicate ByName(qs: seq<Weighted<string>>) {
    forall i, j | 0 <= i < j < |qs| :: Less(qs[i].name, qs[j].name)
  }

  function Clamped(weight: int): (w: int)
    ensures weight < 1 ==> w == 1
    ensures 1 <= weight <= 100_000 ==> w == weight
    ensures weight > 100_000 ==> w == 100_000
  {
    if weight < 1 then 1 else if weight > MAX_WEIGHT then MAX_WEIGHT else weight
  }

  /** qs holds exactly one usable entry for each configured queue in names. */
  ghost predicate Covers(qs: seq<Weighted<string>>, queues: map<string, int>, names: set<string>) {
    && (forall i | 0 <= i < |qs| ::
          qs[i].name in names && qs[i].name in queues && qs[i].weight == Clamped(queues[qs[i].name]))
    && (forall n | n in names :: exists i :: 0 <= i < |qs| && qs[i].name == n)
  }

  method SortIn(qs: seq<Weighted<string>>, q: Weighted<string>) returns (out: seq<Weighted<string>>)
    requires ByName(qs) && forall i | 0 <= i < |qs| :: qs[i].name != q.name
    ensures ByName(out)
    ensures exists p :: 0 <= p <= |qs| && out == qs[..p] + [q] + qs[p..]
  {
    var p := 0;
    while p < |qs| && Less(qs[p].name, q.name)
      invariant 0 <= p <= |qs|
      invariant forall i | 0 <= i < p :: Less(qs[i].name, q.name)
    {
      p := p + 1;
    }
    out := qs[..p] + [q] + qs[p..];
    if p < |qs| {
      LessTotal(qs[p].name, q.name);
      forall j | p < j < |qs| ensures Less(q.name, qs[j].name) {
        LessTransitive(q.name, qs[p].name, qs[j].name);
      }
    }
  }

  lemma CoverMore(qs: seq<Weighted<string>>, q: Weighted<string>, p: nat, queues: map<string, int>, names: set<string>)
    requires Covers(qs, queues, names) && p <= |qs| && q.name in queues && q.weight == Clamped(queues[q.name])
    ensures Covers(qs[..p] + [q] + qs[p..], queues, names + {q.name})
  {
    var out := qs[..p] + [q] + qs[p..];
    assert out[p] == q;
    forall n | n in names ensures exists i :: 0 <= i < |out| && out[i].name == n {
      var i :| 0 <= i < |qs| && qs[i].name == n;
      assert out[if i < p then i else i + 1].name == n;
    }
  }

  /** None is the panic on an empty name; the walk over the map may go in any order. */
  method CheckedQueues(queues: map<string, int>) returns (r: Option<seq<Weighted<string>>>)
    ensures r.None? <==> "" in queues
    ensures |queues| == 0 ==> r == Some([Weighted("default", 1)])
    ensures |queues| > 0 && r.Some? ==> Covers(r.value, queues, queues.Keys)
    ensures r.Some? ==> ByName(r.value) && Weighed(r.value) && DistinctNames(r.value) && r.value != []
  {
    if |queues| == 0 {
      return Some([Weighted(DEFAULT_QUEUE, 1)]);
    }
    var out: seq<Weighted<string>> := [];
    var todo := queues.Keys;
    while todo != {}
      invariant todo <= queues.Keys
      invariant "" in queues ==> "" in todo
      invariant ByName(out)
      invariant Covers(out, queues, queues.Keys - todo)
    {
      var name :| name in todo;
      if name == "" {
        return None;
      }
      var weight := queues[name];
      if weight < 1 {
        weight := 1;
      } else if weight > MAX_WEIGHT {
        weight := MAX_WEIGHT;
      }
      ghost var before, seen := out, queues.Keys - todo;
      out := SortIn(out, Weighted(name, weight));
      ghost var p: nat :| p <= |before| && out == before[..p] + [Weighted(name, weight)] + before[p..];
      CoverMore(before, Weighted(name, weight), p, queues, seen);
      todo := todo - {name};
      assert queues.Keys - todo == seen + {name};
    }
    ByNameDistinct(out);
    assert queues.Keys - {} == queues.Keys;
    r := Some(out);
  }

  lemma ByNameDistinct(qs: seq<Weighted<string>>)
    requires ByName(qs)
    ensures DistinctNames(qs)
  {
    forall i, j | 0 <= i < j < |qs| ensures qs[i].name != qs[j].name {
      LessTotal(qs[i].name, qs[i].name);
    }
  }

  // ------------------------------------------------------------------- order

  /** The scan of one draw; it always stops inside the loop. */
  method Select<N>(remaining: array<Weighted<N>>, n: nat, pick: int) returns (idx: nat)
    requires n <= remaining.Length && Weighed(remaining[..n]) && 0 <= pick < Total(remaining[..n])
    ensures idx == Chosen(remaining[..n], pick)
  {
    ghost var s := remaining[..n];
    idx := n - 1;
    var acc, i, fellThrough := 0, 0, true;
    while i < n
      invariant 0 <= i <= n
      invariant acc == Total(s[..i]) <= pick
    {
      acc := acc + remaining[i].weight;
      assert s[..i + 1][..i] == s[..i];
      if pick < acc {
        OneLanding(s, pick, i);
        idx := i;
        fellThrough := false;
        break;
      }
      i := i + 1;
    }
    assert s[..n] == s;
    assert !fellThrough;
  }

  method Sum<N>(qs: array<Weighted<N>>) returns (total: int)
    ensures total == Total(qs[..])
  {
    total := 0;
    for i := 0 to qs.Length
      invariant total == Total(qs[..i])
    {
      total := total + qs[i].weight;
      assert qs[..i + 1][..i] == qs[..i];
    }
    assert qs[..qs.Length] == qs[..];
  }

  method Copy<N>(qs: array<Weighted<N>>, dst: array<Weighted<N>>)
    requires qs != dst && qs.Length <= dst.Length
    modifies dst
    ensures dst[..qs.Length] == qs[..]
  {
    for i := 0 to qs.Length
      invariant dst[..i] == qs[..i]
    {
      dst[i] := qs[i];
    }
    assert qs[..qs.Length] == qs[..];
  }

  /** With done already placed, drawing on from left comes to goal. */
  ghost predicate OnTrack<N>(left: seq<Weighted<N>>, draws: seq<int>, done: seq<N>, goal: seq<N>) {
    Weighed(left) && InRange(left, draws) && goal == done + Order(left, draws)
  }

  lemma PickOne<N>(left: seq<Weighted<N>>, draws: seq<int>, done: seq<N>, goal: seq<N>)
    requires left != [] && OnTrack(left, draws, done, goal)
    ensures |draws| == |left| && Weighed(left) && 0 <= draws[0] < Total(left)
    ensures var i := Chosen(left, draws[0]);
      && OnTrack(Removed(left, i), draws[1..], done + [left[i].name], goal)
      && Total(Removed(left, i)) == Total(left) - left[i].weight
  {
    var i := Chosen(left, draws[0]);
    TotalRemoved(left, i);
    RemovedWeighed(left, i);
    var rest := Order(Removed(left, i), draws[1..]);
    assert done + ([left[i].name] + rest) == done + [left[i].name] + rest;
  }

  lemma Starts<N>(s: seq<Weighted<N>>, draws: seq<int>)
    requires Weighed(s) && InRange(s, draws)
    ensures OnTrack(s, draws, [], Order(s, draws)) && |draws| == |s|
  {
  }

  lemma LoneOrder<N>(s: seq<Weighted<N>>)
    requires |s| == 1
    ensures multiset([s[0].name]) == multiset(NamesOf(s))
  {
  }

  lemma NoOrder<N>(draws: seq<int>, done: seq<N>, goal: seq<N>)
    requires OnTrack([], draws, done, goal)
    ensures done == goal
  {
  }

  /**
   One round's order. scratch is reused when it has room; the queues themselves are only
   read, as long as scratch is not the same array. A lone queue needs no draw.
   */
  method WeightedOrder<N(0)>(qs: array<Weighted<N>>, scratch: array<Weighted<N>>, draws: seq<int>)
    returns (order: seq<N>)
    requires qs != scratch && Weighed(qs[..])
    requires qs.Length != 1 ==> InRange(qs[..], draws)
    modifies scratch
    ensures qs.Length == 1 ==> order == [qs[0].name]
    ensures qs.Length != 1 ==> order == Order(qs[..], draws)
    ensures multiset(order) == multiset(NamesOf(qs[..]))
  {
    order := [];
    if qs.Length == 0 {
      return;
    }
    if qs.Length == 1 {
      LoneOrder(qs[..]);
      return [qs[0].name];
    }
    hide Order, InRange, Total, Chosen, OnTrack, NamesOf;
    OrderIsPermutation(qs[..], draws);
    ghost var goal := Order(qs[..], draws);
    Starts(qs[..], draws);
    var total := Sum(qs);
    var remaining := scratch;
    if scratch.Length < qs.Length {
      remaining := new Weighted<N>[qs.Length];
    }
    Copy(qs, remaining);
    order := Draw(remaining, qs.Length, total, draws, goal);
  }

  /** Draws until nothing remains, removing each pick in place. */
  method Draw<N>(remaining: array<Weighted<N>>, length: nat, sum: int, draws: seq<int>, ghost goal: seq<N>)
    returns (order: seq<N>)
    requires length <= remaining.Length && |draws| == length
    requires sum == Total(remaining[..length]) && OnTrack(remaining[..length], draws, [], goal)
    modifies remaining
    ensures order == goal
  {
    hide Order, InRange, Total, Chosen, OnTrack, Weighed;
    order := [];
    var n, total := length, sum;
    assert draws[0..] == draws;
    while n > 0
      invariant 0 <= n <= length
      invariant total == Total(remaining[..n])
      invariant OnTrack(remaining[..n], draws[length - n..], order, goal)
    {
      ghost var left, rest := remaining[..n], draws[length - n..];
      PickOne(left, rest, order, goal);
      var idx := Select(remaining, n, draws[length - n]);
      order := order + [remaining[idx].name];
      total := total - remaining[idx].weight;
      remaining[idx] := remaining[n - 1];
      n := n - 1;
      assert remaining[..n] == Removed(left, idx);
      assert rest[1..] == draws[length - n..];
    }
    assert remaining[..0] == [];
    NoOrder(draws[length..], order, goal);
  }

  // ------------------------------------------------------- the round as run

  lemma NoRepeats<N(!new)>(order: seq<N>, i: nat, j: nat)
    requires i < j < |order|
    ensures order[i] == order[j] ==> multiset(order)[order[i]] >= 2
  {
    assert order == order[..j] + order[j..];
    assert order[i] in order[..j] && order[j..][0] == order[j];
    assert order[i] in multiset(order[..j]) && order[j] in multiset(order[j..]);
  }

  ghost predicate OnceEach<N(!new)>(names: seq<N>) {
    forall q :: multiset(names)[q] <= 1
  }

  lemma {:induction false} DistinctOnce<N(!new)>(s: seq<Weighted<N>>)
    requires DistinctNames(s)
    ensures OnceEach(NamesOf(s))
    decreases |s|
  {
    if s != [] {
      var n := |s| - 1;
      DistinctOnce(s[..n]);
      assert NamesOf(s) == NamesOf(s[..n]) + [s[n].name];
      assert s[n].name !in NamesOf(s[..n]);
    }
  }

  /** An order drawn from distinct queues is a round order over the same queues. */
  lemma RoundOrder(s: seq<Weighted<Name>>, order: seq<Name>)
    requires DistinctNames(s) && multiset(order) == multiset(NamesOf(s))
    ensures O.Distinct(order) && R.Names(order) == R.Names(NamesOf(s))
  {
    DistinctOnce(s);
    forall i, j | 0 <= i < j < |order| ensures order[i] != order[j] {
      NoRepeats(order, i, j);
      assert multiset(NamesOf(s))[order[i]] <= 1;
    }
    forall q: Name ensures q in order <==> q in NamesOf(s) {
      assert q in order <==> q in multiset(order);
      assert q in NamesOf(s) <==> q in multiset(NamesOf(s));
    }
  }

  /**
   claimRound with its order drawn: whatever the draws, exactly as many jobs are claimed as
   there is room for and work for, a prefix of each queue's due order, and a short round
   leaves nothing due in any configured queue.
   */
  method DrawnRound(
    desk: W.Desk, qs: array<Weighted<Name>>, scratch: array<Weighted<Name>>,
    draws: seq<int>, leaseFor: Time, capacity: nat, now: Time)
    returns (claimed: seq<Row>)
    requires desk.Valid() && S.WellFormed(desk.drv.Model())
    requires qs != scratch && Weighed(qs[..]) && DistinctNames(qs[..])
    requires qs.Length != 1 ==> InRange(qs[..], draws)
    modifies desk`log, desk.drv, desk.inflight, scratch
    ensures |claimed| == R.Min(capacity, |R.AllDue(old(desk.drv.Model()).jobs, R.Names(NamesOf(qs[..])), now)|)
    ensures forall q | q in NamesOf(qs[..]) ::
      R.TakesPrefix(old(desk.drv.Model()), S.Fetched(desk.drv.Model(), claimed), capacity, now, q)
    ensures desk.inflight.attempts == I.AddAll(old(desk.inflight.attempts), claimed)
  {
    hide R.Round, R.TakesPrefix, R.AllDue, Order, InRange, NamesOf, R.Names, O.Distinct, R.Covered, R.TracksFirst;
    var order := WeightedOrder(qs, scratch, draws);
    RoundOrder(qs[..], order);
    ghost var s, visited := desk.drv.Model(), 0;
    claimed, visited := R.RunRound(desk, order, leaseFor, capacity, now, R.Weather(_ => false, _ => false));
    R.FullRound(s, order, visited, leaseFor, capacity, now);
    R.RoundSize(s, order, leaseFor, capacity, now);
    forall q | q in NamesOf(qs[..])
      ensures R.TakesPrefix(s, S.Fetched(desk.drv.Model(), claimed), capacity, now, q)
    {
      InOrder(qs[..], order, q);
      R.RoundTakesPrefixes(s, order, leaseFor, capacity, now, q);
    }
  }

  lemma InOrder(s: seq<Weighted<Name>>, order: seq<Name>, q: Name)
    requires multiset(order) == multiset(NamesOf(s)) && q in NamesOf(s)
    ensures q in order
  {
    assert q in multiset(NamesOf(s));
    assert q in multiset(order);
  }
}
