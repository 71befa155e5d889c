/** The maximising search of the long-walk solver: a table of the best known route costs,
    starting with the source at 0, and a max-priority queue of (cost, state) entries. A
    popped entry relaxes the edges of its state upwards: a missing entry is first recorded
    at 0, and an entry is raised, and its state queued again, when the popped cost plus
    the edge weight exceeds it. When the queue is empty the table holds the cost of a
    costliest route to each reachable state; that needs every route to be bounded, which
    the graph guarantees only when it has no reachable cycle. */
module Longest {
  import opened Wrappers
  import Dijkstra

  /** c is the cost of a costliest route from the source to s. */
  ghost predicate Longest<S(!new)>(next: S -> Option<seq<(S, nat)>>, source: S, s: S, c: nat) {
    Dijkstra.Witnessed(next, source, s, c) &&
    forall route :: Dijkstra.Route(next, source, route) && Dijkstra.End(source, route) == s ==> Dijkstra.Cost(route) <= c
  }

  /** Every route from the source costs at most `limit`. */
  ghost predicate Bounded<S(!new)>(next: S -> Option<seq<(S, nat)>>, source: S, limit: nat) {
    forall route :: Dijkstra.Route(next, source, route) ==> Dijkstra.Cost(route) <= limit
  }

  /** Every state of s has its edges, each of weight at least 1. */
  ghost predicate Weighted<S>(next: S -> Option<seq<(S, nat)>>, s: set<S>) {
    forall x :: x in s ==> next(x).Some? && forall step :: step in next(x).value ==> step.1 >= 1
  }

  /** Every edge out of s has been relaxed upwards against the recorded cost of s. */
  ghost predicate Raised<S>(next: S -> Option<seq<(S, nat)>>, dist: map<S, nat>, s: S)
    requires s in dist
  {
    next(s).Some? &&
    forall step :: step in next(s).value ==> step.0 in dist && dist[step.0] >= dist[s] + step.1
  }

  /** The state of the search loop: every recorded cost and every queued entry is the cost
      of a route; an entry never exceeds the recorded cost of its state; and a recorded
      state either has an entry at its recorded cost or has been relaxed at that cost. */
  ghost predicate Heights<S(!new)>(next: S -> Option<seq<(S, nat)>>, source: S, bound: set<S>, dist: map<S, nat>, queue: seq<(nat, S)>) {
    dist.Keys <= bound && source in dist &&
    (forall s :: s in dist ==> Dijkstra.Witnessed(next, source, s, dist[s])) &&
    (forall e :: e in queue ==> e.1 in dist && e.0 <= dist[e.1] && Dijkstra.Witnessed(next, source, e.1, e.0)) &&
    (forall s :: s in dist ==> (dist[s], s) in queue || Raised(next, dist, s))
  }

  /** `distance` (src/day23.rs): the costs of costliest routes, then the cost recorded for
      some state satisfying `arrived`, if any. Which one is unspecified, as the table is a
      hash map. `bound` is a finite closed set holding the source and `limit` bounds the
      cost of every route; both only serve the termination argument. */
  method Distance<S(==,!new)>(source: S, next: S -> Option<seq<(S, nat)>>, arrived: S -> bool, ghost bound: set<S>, ghost limit: nat) returns (r: Option<nat>)
    requires source in bound && Dijkstra.Closed(next, bound) && Weighted(next, bound)
    requires Bounded(next, source, limit)
    ensures r.Some? ==> exists s :: arrived(s) && Longest(next, source, s, r.value)
    ensures r.None? ==> forall route :: Dijkstra.Route(next, source, route) ==> !arrived(Dijkstra.End(source, route))
  {
    var dist := Costliest(source, next, bound, limit);
    if s :| s in dist && arrived(s) {
      r := Some(dist[s]);
    } else {
      r := None;
    }
  }

  /** The loop of `distance`: with the queue empty, each reachable state is recorded with
      the cost of a costliest route to it. */
  method Costliest<S(==,!new)>(source: S, next: S -> Option<seq<(S, nat)>>, ghost bound: set<S>, ghost limit: nat) returns (dist: map<S, nat>)
    requires source in bound && Dijkstra.Closed(next, bound) && Weighted(next, bound)
    requires Bounded(next, source, limit)
    ensures forall s :: s in dist <==> Dijkstra.Reached(next, source, s)
    ensures forall s :: s in dist ==> Longest(next, source, s, dist[s])
  {
    dist := map[source := 0];
    var queue := [(0, source)];
    Start(next, source, bound);
    while queue != []
      invariant Heights(next, source, bound, dist, queue)
      decreases Deficit(dist, bound, limit), |queue|
    {
      var i := MaxIndex(queue);
      var (c, s) := queue[i];
      var ns := next(s).value;
      Inside(next, source, bound, limit, dist, queue, i);
      var dist', pushed := Raise(dist, c, ns, bound, limit);
      var rest := queue[..i] + queue[i + 1..];
      Dijkstra.Pop(queue, i, rest);
      Settle(next, source, bound, dist, queue, i, rest, dist', pushed);
      dist, queue := dist', rest + pushed;
    }
    Exhaust(next, source, bound, dist);
  }

  lemma Start<S(!new)>(next: S -> Option<seq<(S, nat)>>, source: S, bound: set<S>)
    requires source in bound
    ensures Heights(next, source, bound, map[source := 0], [(0, source)])
  {
    assert Dijkstra.Route(next, source, []) && Dijkstra.End(source, []) == source && Dijkstra.Cost<S>([]) == 0;
  }

  /** The index of an entry of greatest cost: the pop of the max-heap. */
  method MaxIndex<S>(queue: seq<(nat, S)>) returns (i: nat)
    requires queue != []
    ensures i < |queue| && forall j :: 0 <= j < |queue| ==> queue[j].0 <= queue[i].0
  {
    i := 0;
    var k := 1;
    while k < |queue|
      invariant i < k <= |queue| && forall j :: 0 <= j < k ==> queue[j].0 <= queue[i].0
    {
      if queue[k].0 > queue[i].0 {
        i := k;
      }
      k := k + 1;
    }
  }

  /** The popped state has its edges, each ending in the bound, each of weight at least 1
      and each leading to a route no costlier than the limit; every recorded cost is within
      the limit too. */
  lemma Inside<S(!new)>(next: S -> Option<seq<(S, nat)>>, source: S, bound: set<S>, limit: nat, dist: map<S, nat>, queue: seq<(nat, S)>, i: nat)
    requires Heights(next, source, bound, dist, queue) && Bounded(next, source, limit)
    requires Dijkstra.Closed(next, bound) && Weighted(next, bound) && i < |queue|
    ensures next(queue[i].1).Some?
    ensures forall step :: step in next(queue[i].1).value ==> step.0 in bound && step.1 >= 1 && queue[i].0 + step.1 <= limit
    ensures forall k :: k in dist ==> dist[k] <= limit
  {
    var (c, s) := queue[i];
    assert s in dist;
    forall step | step in next(s).value ensures step.0 in bound && step.1 >= 1 && c + step.1 <= limit {
      assert Dijkstra.Edge(next, s, step);
      Dijkstra.WitnessedStep(next, source, s, c, step);
      WithinLimit(next, source, limit, step.0, c + step.1);
    }
    forall k | k in dist ensures dist[k] <= limit {
      WithinLimit(next, source, limit, k, dist[k]);
    }
  }

  lemma WithinLimit<S(!new)>(next: S -> Option<seq<(S, nat)>>, source: S, limit: nat, s: S, c: nat)
    requires Bounded(next, source, limit) && Dijkstra.Witnessed(next, source, s, c)
    ensures c <= limit
  {
    var route :| Dijkstra.Route(next, source, route) && Dijkstra.End(source, route) == s && Dijkstra.Cost(route) == c;
  }

  /** What relaxing the edges `ns` of a state popped at cost c upwards does to the table:
      costs only go up, every edge end is recorded at least c plus the edge weight, and a
      cost that changed, or a new state, is queued with its new cost; `pushed` holds only
      such entries, each for an edge of `ns`. */
  ghost predicate Raises<S>(dist: map<S, nat>, c: nat, ns: seq<(S, nat)>, dist': map<S, nat>, pushed: seq<(nat, S)>) {
    (forall t :: t in dist ==> t in dist' && dist'[t] >= dist[t]) &&
    (forall step :: step in ns ==> step.0 in dist' && dist'[step.0] >= c + step.1) &&
    (forall t :: t in dist' ==> (t in dist && dist'[t] == dist[t]) || (dist'[t], t) in pushed) &&
    (forall e :: e in pushed ==> e.0 >= c && (e.1, e.0 - c) in ns)
  }

  /** The relaxation loop over the edges of a popped state. The deficit of the recorded
      costs below the limit drops by at least one per entry queued. */
  method Raise<S(==)>(dist: map<S, nat>, c: nat, ns: seq<(S, nat)>, ghost bound: set<S>, ghost limit: nat) returns (dist': map<S, nat>, pushed: seq<(nat, S)>)
    requires dist.Keys <= bound && forall k :: k in dist ==> dist[k] <= limit
    requires forall step :: step in ns ==> step.0 in bound && step.1 >= 1 && c + step.1 <= limit
    ensures Raises(dist, c, ns, dist', pushed)
    ensures dist'.Keys <= bound
    ensures Deficit(dist', bound, limit) + |pushed| <= Deficit(dist, bound, limit)
  {
    dist', pushed := dist, [];
    for k := 0 to |ns|
      invariant Raises(dist, c, ns[..k], dist', pushed)
      invariant dist'.Keys <= bound && forall t :: t in dist' ==> dist'[t] <= limit
      invariant Deficit(dist', bound, limit) + |pushed| <= Deficit(dist, bound, limit)
    {
      var (n, w) := ns[k];
      assert ns[..k + 1] == ns[..k] + [(n, w)];
      assert (n, w) in ns;
      ghost var before, queued := dist', pushed;
      dist', pushed := RaiseOne(dist', pushed, c, (n, w), bound, limit);
      if n !in before || before[n] < c + w {
        RaiseStep(dist, c, ns[..k], (n, w), before, queued, dist', pushed);
      } else {
        KeepStep(dist, c, ns[..k], (n, w), before, pushed);
      }
    }
    assert ns[..|ns|] == ns;
  }

  /** One edge of the relaxation loop: `or_insert(0)`, then raise the entry and queue it
      when the popped cost plus the weight exceeds it. */
  method RaiseOne<S(==)>(d: map<S, nat>, p: seq<(nat, S)>, c: nat, step: (S, nat), ghost bound: set<S>, ghost limit: nat) returns (d': map<S, nat>, p': seq<(nat, S)>)
    requires d.Keys <= bound && forall k :: k in d ==> d[k] <= limit
    requires step.0 in bound && step.1 >= 1 && c + step.1 <= limit
    ensures d'.Keys <= bound && forall t :: t in d' ==> d'[t] <= limit
    ensures Deficit(d', bound, limit) + |p'| <= Deficit(d, bound, limit) + |p|
    ensures step.0 !in d || d[step.0] < c + step.1 ==> d' == d[step.0 := c + step.1] && p' == p + [(c + step.1, step.0)]
    ensures step.0 in d && d[step.0] >= c + step.1 ==> d' == d && p' == p
  {
    var (n, w) := step;
    d', p' := d, p;
    if n !in d' {
      d' := d'[n := 0];
    }
    DeficitMono(d, d', bound, limit, n);
    if d'[n] < c + w {
      ghost var inserted := d';
      d' := d'[n := c + w];
      p' := p' + [(c + w, n)];
      DeficitMono(inserted, d', bound, limit, n);
    }
  }

  lemma RaiseStep<S>(dist: map<S, nat>, c: nat, ns: seq<(S, nat)>, step: (S, nat), d: map<S, nat>, p: seq<(nat, S)>, d': map<S, nat>, p': seq<(nat, S)>)
    requires Raises(dist, c, ns, d, p)
    requires step.0 !in d || d[step.0] < c + step.1
    requires d' == d[step.0 := c + step.1] && p' == p + [(c + step.1, step.0)]
    ensures Raises(dist, c, ns + [step], d', p')
  {
    var (n, w) := step;
    forall e | e in p' ensures e.0 >= c && (e.1, e.0 - c) in ns + [step] {
      if e in p {
        assert (e.1, e.0 - c) in ns;
      } else {
        assert e == (c + w, n);
      }
    }
  }

  lemma KeepStep<S>(dist: map<S, nat>, c: nat, ns: seq<(S, nat)>, step: (S, nat), d: map<S, nat>, p: seq<(nat, S)>)
    requires Raises(dist, c, ns, d, p)
    requires step.0 in d && d[step.0] >= c + step.1
    ensures Raises(dist, c, ns + [step], d, p)
  {
    forall e | e in p ensures (e.1, e.0 - c) in ns + [step] {
      assert (e.1, e.0 - c) in ns;
    }
  }

  /** The recorded cost, 0 for a state without one (`or_insert(0)`). */
  function Get<S>(dist: map<S, nat>, k: S): nat {
    if k in dist then dist[k] else 0
  }

  /** How far the recorded costs of the states of `keys` lie below the limit, in total. */
  ghost function Deficit<S>(dist: map<S, nat>, keys: set<S>, limit: nat): nat
    decreases keys
  {
    if keys == {} then 0
    else
      var k := Dijkstra.Pick(keys);
      (if Get(dist, k) <= limit then limit - Get(dist, k) else 0) + Deficit(dist, keys - {k}, limit)
  }

  /** Raising recorded costs, within the limit, lowers the deficit; raising one strictly
      lowers it strictly. */
  lemma {:induction false} DeficitMono<S>(dist: map<S, nat>, dist': map<S, nat>, keys: set<S>, limit: nat, t: S)
    requires forall k :: k in keys ==> Get(dist, k) <= Get(dist', k) <= limit
    ensures Deficit(dist', keys, limit) <= Deficit(dist, keys, limit)
    ensures t in keys && Get(dist, t) < Get(dist', t) ==> Deficit(dist', keys, limit) < Deficit(dist, keys, limit)
    decreases keys
  {
    if keys != {} {
      var k := Dijkstra.Pick(keys);
      DeficitMono(dist, dist', keys - {k}, limit, t);
    }
  }

  /** Relaxing a popped state upwards keeps the loop state. */
  lemma Settle<S(!new)>(next: S -> Option<seq<(S, nat)>>, source: S, bound: set<S>, dist: map<S, nat>, queue: seq<(nat, S)>, i: nat, rest: seq<(nat, S)>, dist': map<S, nat>, pushed: seq<(nat, S)>)
    requires Heights(next, source, bound, dist, queue)
    requires i < |queue| && next(queue[i].1).Some?
    requires forall e :: e in rest ==> e in queue
    requires forall e :: e in queue && e != queue[i] ==> e in rest
    requires Raises(dist, queue[i].0, next(queue[i].1).value, dist', pushed)
    requires dist'.Keys <= bound
    ensures Heights(next, source, bound, dist', rest + pushed)
  {
    var (c, s) := queue[i];
    assert Dijkstra.Witnessed(next, source, s, c);
    SettleWitnessed(next, source, s, c, dist, dist', pushed);
    SettleQueue(dist, queue, rest, c, next(s).value, dist', pushed);
    SettleRaised(next, dist, queue, i, rest, dist', pushed);
  }

  lemma SettleWitnessed<S(!new)>(next: S -> Option<seq<(S, nat)>>, source: S, s: S, c: nat, dist: map<S, nat>, dist': map<S, nat>, pushed: seq<(nat, S)>)
    requires Dijkstra.Witnessed(next, source, s, c) && next(s).Some?
    requires forall t :: t in dist ==> Dijkstra.Witnessed(next, source, t, dist[t])
    requires Raises(dist, c, next(s).value, dist', pushed)
    ensures forall e :: e in pushed ==> Dijkstra.Witnessed(next, source, e.1, e.0)
    ensures forall t :: t in dist' ==> Dijkstra.Witnessed(next, source, t, dist'[t])
  {
    forall e | e in pushed ensures Dijkstra.Witnessed(next, source, e.1, e.0) {
      Dijkstra.WitnessedStep(next, source, s, c, (e.1, e.0 - c));
    }
  }

  lemma SettleQueue<S>(dist: map<S, nat>, queue: seq<(nat, S)>, rest: seq<(nat, S)>, c: nat, ns: seq<(S, nat)>, dist': map<S, nat>, pushed: seq<(nat, S)>)
    requires forall e :: e in queue ==> e.1 in dist && e.0 <= dist[e.1]
    requires forall e :: e in rest ==> e in queue
    requires Raises(dist, c, ns, dist', pushed)
    ensures forall e :: e in rest + pushed ==> e.1 in dist' && e.0 <= dist'[e.1]
  {
    forall e | e in rest + pushed ensures e.1 in dist' && e.0 <= dist'[e.1] {
      if e in rest {
        assert e in queue;
      } else {
        assert (e.1, e.0 - c) in ns;
      }
    }
  }

  lemma SettleRaised<S>(next: S -> Option<seq<(S, nat)>>, dist: map<S, nat>, queue: seq<(nat, S)>, i: nat, rest: seq<(nat, S)>, dist': map<S, nat>, pushed: seq<(nat, S)>)
    requires i < |queue| && next(queue[i].1).Some?
    requires forall t :: t in dist ==> (dist[t], t) in queue || Raised(next, dist, t)
    requires forall e :: e in queue && e != queue[i] ==> e in rest
    requires Raises(dist, queue[i].0, next(queue[i].1).value, dist', pushed)
    ensures forall t :: t in dist' ==> (dist'[t], t) in rest + pushed || Raised(next, dist', t)
  {
    var (c, s) := queue[i];
    forall t | t in dist' && (dist'[t], t) !in pushed ensures (dist'[t], t) in rest || Raised(next, dist', t) {
      assert t in dist && dist'[t] == dist[t];
      if (dist[t], t) == (c, s) {
        assert Raised(next, dist', t);
      } else if (dist[t], t) !in queue {
        RaisedKept(next, dist, dist', t);
      }
    }
  }

  /** Raising other costs keeps a state relaxed. */
  lemma RaisedKept<S>(next: S -> Option<seq<(S, nat)>>, dist: map<S, nat>, dist': map<S, nat>, t: S)
    requires t in dist && Raised(next, dist, t)
    requires forall u :: u in dist ==> u in dist' && dist'[u] >= dist[u]
    requires dist'[t] == dist[t]
    ensures Raised(next, dist', t)
  {
    forall step | step in next(t).value ensures step.0 in dist' && dist'[step.0] >= dist'[t] + step.1 {
      assert step.0 in dist;
    }
  }

  /** Following any route from the source through relaxed states, its end is recorded at
      no less than the route's cost. */
  lemma {:induction false} Above<S(!new)>(next: S -> Option<seq<(S, nat)>>, source: S, dist: map<S, nat>, route: seq<(S, nat)>)
    requires source in dist && forall s :: s in dist ==> Raised(next, dist, s)
    requires Dijkstra.Route(next, source, route)
    ensures Dijkstra.End(source, route) in dist && dist[Dijkstra.End(source, route)] >= Dijkstra.Cost(route)
    decreases |route|
  {
    if route != [] {
      var front := route[..|route| - 1];
      var step := route[|route| - 1];
      forall k | 0 <= k < |front| ensures Dijkstra.Edge(next, Dijkstra.Before(source, front, k), front[k]) {
        assert Dijkstra.Before(source, front, k) == Dijkstra.Before(source, route, k);
      }
      Above(next, source, dist, front);
      var p := Dijkstra.End(source, front);
      assert Dijkstra.Edge(next, p, step) by {
        assert Dijkstra.Before(source, route, |front|) == p;
      }
      assert Raised(next, dist, p);
      assert step in next(p).value;
      assert Dijkstra.End(source, route) == step.0 && Dijkstra.Cost(route) == Dijkstra.Cost(front) + step.1;
    }
  }

  /** With the queue empty every recorded cost is a costliest one and the recorded states
      are exactly the reachable ones. */
  lemma Exhaust<S(!new)>(next: S -> Option<seq<(S, nat)>>, source: S, bound: set<S>, dist: map<S, nat>)
    requires Heights(next, source, bound, dist, [])
    ensures forall s :: s in dist <==> Dijkstra.Reached(next, source, s)
    ensures forall s :: s in dist ==> Longest(next, source, s, dist[s])
  {
    assert forall s :: s in dist ==> Raised(next, dist, s);
    forall route | Dijkstra.Route(next, source, route) ensures Dijkstra.End(source, route) in dist && dist[Dijkstra.End(source, route)] >= Dijkstra.Cost(route) {
      Above(next, source, dist, route);
    }
    forall s | s in dist ensures Dijkstra.Reached(next, source, s) {
      assert Dijkstra.Witnessed(next, source, s, dist[s]);
    }
  }
}
