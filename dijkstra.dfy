/** The uniform-cost search shared by the crucible and step-counter solvers: a map of best
    known costs and a priority queue of (cost, state) entries, both seeded with the source
    at cost 0. A popped entry relaxes the edges of its state; an edge that improves the
    recorded cost of its end records the new cost and queues the end again. Stale entries
    are never removed, only popped and relaxed like any other. */
module Dijkstra {
  import opened Wrappers
  import Search
  import Sorting

  /** The edges out of a state are (state, weight) pairs; None when they cannot be weighed
      (a missing heat-loss value). */
  predicate Edge<S(==)>(next: S -> Option<seq<(S, nat)>>, s: S, step: (S, nat)) {
    next(s).Some? && step in next(s).value
  }

  /** The state a route is at before its k-th step. */
  function Before<S>(source: S, route: seq<(S, nat)>, k: nat): S
    requires k <= |route|
  {
    if k == 0 then source else route[k - 1].0
  }

  function End<S>(source: S, route: seq<(S, nat)>): S {
    Before(source, route, |route|)
  }

  /** Every step of the route follows an edge out of the state before it. */
  ghost predicate Route<S>(next: S -> Option<seq<(S, nat)>>, source: S, route: seq<(S, nat)>) {
    forall k :: 0 <= k < |route| ==> Edge(next, Before(source, route, k), route[k])
  }

  /** The sum of the weights of the steps. */
  function Cost<S>(route: seq<(S, nat)>): nat {
    if route == [] then 0 else Cost(route[..|route| - 1]) + route[|route| - 1].1
  }

  /** A step followed by a route from its end is a route: its cost adds the step's weight
      and it ends where the route does. */
  lemma Prepend<S>(next: S -> Option<seq<(S, nat)>>, source: S, step: (S, nat), route: seq<(S, nat)>)
    requires Edge(next, source, step) && Route(next, step.0, route)
    ensures Route(next, source, [step] + route)
    ensures Cost([step] + route) == step.1 + Cost(route)
    ensures End(source, [step] + route) == End(step.0, route)
  {
    var whole := [step] + route;
    forall k | 0 <= k < |whole| ensures Edge(next, Before(source, whole, k), whole[k]) {
      if k > 0 {
        assert Before(source, whole, k) == Before(step.0, route, k - 1);
      }
    }
    CostFront(step, route);
  }

  /** A route of at least one step is its first step followed by a route from its end. */
  lemma Unfold<S>(next: S -> Option<seq<(S, nat)>>, source: S, route: seq<(S, nat)>)
    requires Route(next, source, route) && route != []
    ensures Edge(next, source, route[0]) && Route(next, route[0].0, route[1..])
    ensures Cost(route) == route[0].1 + Cost(route[1..])
    ensures End(source, route) == End(route[0].0, route[1..])
  {
    assert Edge(next, Before(source, route, 0), route[0]);
    var rest := route[1..];
    forall k | 0 <= k < |rest| ensures Edge(next, Before(route[0].0, rest, k), rest[k]) {
      assert Before(route[0].0, rest, k) == Before(source, route, k + 1);
    }
    assert [route[0]] + rest == route;
    CostFront(route[0], rest);
  }

  lemma {:induction false} CostFront<S>(step: (S, nat), route: seq<(S, nat)>)
    ensures Cost([step] + route) == step.1 + Cost(route)
    decreases |route|
  {
    if route != [] {
      var whole := [step] + route;
      assert whole[..|whole| - 1] == [step] + route[..|route| - 1];
      CostFront(step, route[..|route| - 1]);
    }
  }

  /** Some route from the source ends at s with cost c. */
  ghost predicate Witnessed<S(!new)>(next: S -> Option<seq<(S, nat)>>, source: S, s: S, c: nat) {
    exists route :: Route(next, source, route) && End(source, route) == s && Cost(route) == c
  }

  ghost predicate Reached<S(!new)>(next: S -> Option<seq<(S, nat)>>, source: S, s: S) {
    exists route :: Route(next, source, route) && End(source, route) == s
  }

  /** c is the cost of a cheapest route from the source to s. */
  ghost predicate Shortest<S(!new)>(next: S -> Option<seq<(S, nat)>>, source: S, s: S, c: nat) {
    Witnessed(next, source, s, c) &&
    forall route :: Route(next, source, route) && End(source, route) == s ==> c <= Cost(route)
  }

  /** c is the cost of a cheapest route from the source to any target. */
  ghost predicate Best<S(!new)>(next: S -> Option<seq<(S, nat)>>, source: S, isTarget: S -> bool, c: nat) {
    (exists route :: Route(next, source, route) && isTarget(End(source, route)) && Cost(route) == c) &&
    forall route :: Route(next, source, route) && isTarget(End(source, route)) ==> c <= Cost(route)
  }

  /** The edges out of a member of s stay in s. */
  ghost predicate Closed<S(!new)>(next: S -> Option<seq<(S, nat)>>, s: set<S>) {
    forall x, step :: x in s && Edge(next, x, step) ==> step.0 in s
  }

  /** Every edge out of s has been relaxed against the recorded cost of s. */
  ghost predicate Relaxed<S>(next: S -> Option<seq<(S, nat)>>, dist: map<S, nat>, s: S)
    requires s in dist
  {
    next(s).Some? &&
    forall step :: step in next(s).value ==> step.0 in dist && dist[step.0] <= dist[s] + step.1
  }

  /** The state of the search loop: every recorded cost and every queued entry is the cost
      of a route; an entry never undercuts the recorded cost of its state; and a recorded
      state either has an entry at its recorded cost or has been relaxed at that cost
      (never a target, which ends the search when popped). */
  ghost predicate Labels<S(!new)>(next: S -> Option<seq<(S, nat)>>, source: S, isTarget: S -> bool, bound: set<S>, dist: map<S, nat>, queue: seq<(nat, S)>) {
    dist.Keys <= bound && source in dist && dist[source] == 0 &&
    (forall s :: s in dist ==> Witnessed(next, source, s, dist[s])) &&
    (forall e :: e in queue ==> e.1 in dist && dist[e.1] <= e.0 && Witnessed(next, source, e.1, e.0)) &&
    (forall s :: s in dist ==> (dist[s], s) in queue || (!isTarget(s) && Relaxed(next, dist, s)))
  }

  datatype Outcome<S> =
    | Arrived(cost: nat)           // a target was popped at this cost
    | Stuck(state: S)              // the edges of a popped state could not be weighed
    | Exhausted(dist: map<S, nat>) // the queue ran empty

  /** The search loop of `distance` (src/day17.rs) and `distances` (src/day21.rs): a popped
      target ends the search with its cost, a popped state whose edges cannot be weighed
      ends it without one, and an empty queue leaves the table of cheapest costs. The
      queue pops as `BinaryHeap<(Reverse<cost>, state)>` does: a least cost, and among
      entries of that cost the greatest state under `le`, the derived order on states.
      `bound` is a finite closed set holding the source; it only serves the termination
      argument. */
  method Run<S(==,!new)>(source: S, next: S -> Option<seq<(S, nat)>>, isTarget: S -> bool, le: (S, S) -> bool, ghost bound: set<S>) returns (r: Outcome<S>)
    requires source in bound && Closed(next, bound)
    requires Sorting.Total(le) && Sorting.Transitive(le)
    ensures r.Arrived? ==> Best(next, source, isTarget, r.cost)
    ensures r.Stuck? ==> Reached(next, source, r.state) && next(r.state).None?
    ensures r.Exhausted? ==> forall route :: Route(next, source, route) ==> !isTarget(End(source, route))
    ensures r.Exhausted? ==> forall s :: s in r.dist <==> Reached(next, source, s)
    ensures r.Exhausted? ==> r.dist.Keys <= bound
    ensures r.Exhausted? ==> forall s :: s in r.dist ==> Shortest(next, source, s, r.dist[s]) && next(s).Some?
  {
    var dist := map[source := 0];
    var queue := [(0, source)];
    Start(next, source, isTarget, bound);
    while queue != []
      invariant Labels(next, source, isTarget, bound, dist, queue)
      decreases |bound - dist.Keys|, Total(dist, bound), |queue|
    {
      var i := MinIndex(queue, le);
      var (c, s) := queue[i];
      if isTarget(s) {
        Arrive(next, source, isTarget, bound, dist, queue, i);
        return Arrived(c);
      }
      match next(s) {
        case None =>
          Witness(next, source, s, c);
          return Stuck(s);
        case Some(ns) =>
          Inside(next, bound, dist, queue, i);
          var dist', pushed := Relax(dist, c, ns, bound);
          var rest := queue[..i] + queue[i + 1..];
          Pop(queue, i, rest);
          Settle(next, source, isTarget, bound, dist, queue, i, rest, dist', pushed);
          if dist'.Keys != dist.Keys {
            Search.Shrink(bound, dist.Keys, dist'.Keys);
          }
          dist, queue := dist', rest + pushed;
      }
    }
    Exhaust(next, source, isTarget, bound, dist);
    return Exhausted(dist);
  }

  /** The edges out of a queued state end in the bound. */
  lemma Inside<S(!new)>(next: S -> Option<seq<(S, nat)>>, bound: set<S>, dist: map<S, nat>, queue: seq<(nat, S)>, i: nat)
    requires Closed(next, bound) && dist.Keys <= bound
    requires i < |queue| && queue[i].1 in dist && next(queue[i].1).Some?
    ensures forall step :: step in next(queue[i].1).value ==> step.0 in bound
  {
    var s := queue[i].1;
    forall step | step in next(s).value ensures step.0 in bound {
      assert Edge(next, s, step);
    }
  }

  lemma Start<S(!new)>(next: S -> Option<seq<(S, nat)>>, source: S, isTarget: S -> bool, bound: set<S>)
    requires source in bound
    ensures Labels(next, source, isTarget, bound, map[source := 0], [(0, source)])
  {
    assert Route(next, source, []) && End(source, []) == source && Cost<S>([]) == 0;
  }

  /** The index of the entry the binary heap pops: one of least cost, and among the
      entries of that cost one whose state is greatest under `le`. */
  method MinIndex<S(!new)>(queue: seq<(nat, S)>, le: (S, S) -> bool) returns (i: nat)
    requires queue != []
    requires Sorting.Total(le) && Sorting.Transitive(le)
    ensures i < |queue| && forall j :: 0 <= j < |queue| ==> queue[i].0 <= queue[j].0
    ensures forall j :: 0 <= j < |queue| && queue[j].0 == queue[i].0 ==> le(queue[j].1, queue[i].1)
  {
    i := 0;
    var k := 1;
    while k < |queue|
      invariant i < k <= |queue|
      invariant forall j :: 0 <= j < k ==> queue[i].0 <= queue[j].0
      invariant forall j :: 0 <= j < k && queue[j].0 == queue[i].0 ==> le(queue[j].1, queue[i].1)
    {
      if queue[k].0 < queue[i].0 || (queue[k].0 == queue[i].0 && le(queue[i].1, queue[k].1)) {
        i := k;
      }
      k := k + 1;
    }
  }

  /** Removing the i-th entry keeps every other entry. */
  lemma Pop<S>(queue: seq<(nat, S)>, i: nat, rest: seq<(nat, S)>)
    requires i < |queue| && rest == queue[..i] + queue[i + 1..]
    ensures forall e :: e in rest ==> e in queue
    ensures forall e :: e in queue && e != queue[i] ==> e in rest
  {
    forall e | e in queue && e != queue[i] ensures e in rest {
      var j :| 0 <= j < |queue| && queue[j] == e;
      if j < i {
        assert rest[j] == e;
      } else {
        assert rest[j - 1] == e;
      }
    }
  }

  /** What relaxing the edges `ns` of a state popped at cost c does to the table: costs
      only go down, every edge end is recorded at most c plus the edge weight, and a cost
      that changed, or a new state, is queued with its new cost; `pushed` holds only such
      entries, each for an edge of `ns`. */
  ghost predicate Relaxes<S>(dist: map<S, nat>, c: nat, ns: seq<(S, nat)>, dist': map<S, nat>, pushed: seq<(nat, S)>) {
    (forall t :: t in dist ==> t in dist' && dist'[t] <= dist[t]) &&
    (forall step :: step in ns ==> step.0 in dist' && dist'[step.0] <= c + step.1) &&
    (forall t :: t in dist' ==> (t in dist && dist'[t] == dist[t]) || (dist'[t], t) in pushed) &&
    (forall e :: e in pushed ==> e.0 >= c && (e.1, e.0 - c) in ns)
  }

  /** The relaxation loop over the edges of a popped state. The total of the recorded costs
      drops by at least one per entry queued, unless a new state was recorded. */
  method Relax<S(==)>(dist: map<S, nat>, c: nat, ns: seq<(S, nat)>, ghost bound: set<S>) returns (dist': map<S, nat>, pushed: seq<(nat, S)>)
    requires dist.Keys <= bound && forall step :: step in ns ==> step.0 in bound
    ensures Relaxes(dist, c, ns, dist', pushed)
    ensures dist.Keys <= dist'.Keys <= bound
    ensures dist'.Keys == dist.Keys ==> Total(dist', bound) + |pushed| <= Total(dist, bound)
  {
    dist', pushed := dist, [];
    for k := 0 to |ns|
      invariant Relaxes(dist, c, ns[..k], dist', pushed)
      invariant dist.Keys <= dist'.Keys <= bound
      invariant dist'.Keys == dist.Keys ==> Total(dist', bound) + |pushed| <= Total(dist, bound)
    {
      var (n, w) := ns[k];
      assert ns[..k + 1] == ns[..k] + [(n, w)];
      ghost var before, queued := dist', pushed;
      if n !in dist' || dist'[n] > c + w {
        dist' := dist'[n := c + w];
        pushed := pushed + [(c + w, n)];
        if n in before {
          TotalLower(before, dist', bound, n);
        }
      }
      RelaxStep(dist, c, ns[..k], (n, w), before, queued, dist', pushed);
    }
    assert ns[..|ns|] == ns;
  }

  lemma RelaxStep<S>(dist: map<S, nat>, c: nat, ns: seq<(S, nat)>, step: (S, nat), d: map<S, nat>, p: seq<(nat, S)>, d': map<S, nat>, p': seq<(nat, S)>)
    requires Relaxes(dist, c, ns, d, p)
    requires
      var (n, w) := step;
      if n !in d || d[n] > c + w then d' == d[n := c + w] && p' == p + [(c + w, n)] else d' == d && p' == p
    ensures Relaxes(dist, c, ns + [step], d', p')
  {
    var (n, w) := step;
    forall e | e in p' ensures e.0 >= c && (e.1, e.0 - c) in ns + [step] {
      if e in p {
        assert (e.1, e.0 - c) in ns;
      } else {
        assert e == (c + w, n);
      }
    }
  }

  /** Sum of the recorded costs of the states of `keys`. */
  ghost function Total<S>(dist: map<S, nat>, keys: set<S>): nat
    decreases keys
  {
    if keys == {} then 0
    else
      var k := Pick(keys);
      (if k in dist then dist[k] else 0) + Total(dist, keys - {k})
  }

  ghost function Pick<S>(s: set<S>): S
    requires s != {}
  {
    var x :| x in s; x
  }

  /** Lowering one recorded cost lowers the total. */
  lemma {:induction false} TotalLower<S>(dist: map<S, nat>, dist': map<S, nat>, keys: set<S>, t: S)
    requires t in dist && t in dist' && dist' == dist[t := dist'[t]] && dist'[t] < dist[t]
    ensures Total(dist', keys) <= Total(dist, keys)
    ensures t in keys ==> Total(dist', keys) < Total(dist, keys)
    decreases keys
  {
    if keys != {} {
      var k := Pick(keys);
      TotalLower(dist, dist', keys - {k}, t);
    }
  }

  /** Relaxing a popped non-target state keeps the loop state. */
  lemma Settle<S(!new)>(next: S -> Option<seq<(S, nat)>>, source: S, isTarget: S -> bool, bound: set<S>, dist: map<S, nat>, queue: seq<(nat, S)>, i: nat, rest: seq<(nat, S)>, dist': map<S, nat>, pushed: seq<(nat, S)>)
    requires Labels(next, source, isTarget, bound, dist, queue)
    requires i < |queue| && !isTarget(queue[i].1) && next(queue[i].1).Some?
    requires forall e :: e in rest ==> e in queue
    requires forall e :: e in queue && e != queue[i] ==> e in rest
    requires Relaxes(dist, queue[i].0, next(queue[i].1).value, dist', pushed)
    requires dist'.Keys <= bound
    ensures Labels(next, source, isTarget, bound, dist', rest + pushed)
  {
    var (c, s) := queue[i];
    assert Witnessed(next, source, s, c);
    SettleWitnessed(next, source, s, c, dist, dist', pushed);
    SettleQueue(dist, queue, rest, c, next(s).value, dist', pushed);
    SettleRelaxed(next, isTarget, dist, queue, i, rest, dist', pushed);
  }

  lemma SettleWitnessed<S(!new)>(next: S -> Option<seq<(S, nat)>>, source: S, s: S, c: nat, dist: map<S, nat>, dist': map<S, nat>, pushed: seq<(nat, S)>)
    requires Witnessed(next, source, s, c) && next(s).Some?
    requires forall t :: t in dist ==> Witnessed(next, source, t, dist[t])
    requires Relaxes(dist, c, next(s).value, dist', pushed)
    ensures forall e :: e in pushed ==> Witnessed(next, source, e.1, e.0)
    ensures forall t :: t in dist' ==> Witnessed(next, source, t, dist'[t])
  {
    forall e | e in pushed ensures Witnessed(next, source, e.1, e.0) {
      WitnessedStep(next, source, s, c, (e.1, e.0 - c));
    }
  }

  lemma SettleQueue<S>(dist: map<S, nat>, queue: seq<(nat, S)>, rest: seq<(nat, S)>, c: nat, ns: seq<(S, nat)>, dist': map<S, nat>, pushed: seq<(nat, S)>)
    requires forall e :: e in queue ==> e.1 in dist && dist[e.1] <= e.0
    requires forall e :: e in rest ==> e in queue
    requires Relaxes(dist, c, ns, dist', pushed)
    ensures forall e :: e in rest + pushed ==> e.1 in dist' && dist'[e.1] <= e.0
  {
    forall e | e in rest + pushed ensures e.1 in dist' && dist'[e.1] <= e.0 {
      if e in rest {
        assert e in queue;
      } else {
        assert (e.1, e.0 - c) in ns;
      }
    }
  }

  lemma SettleRelaxed<S>(next: S -> Option<seq<(S, nat)>>, isTarget: S -> bool, dist: map<S, nat>, queue: seq<(nat, S)>, i: nat, rest: seq<(nat, S)>, dist': map<S, nat>, pushed: seq<(nat, S)>)
    requires i < |queue| && !isTarget(queue[i].1) && next(queue[i].1).Some?
    requires forall t :: t in dist ==> (dist[t], t) in queue || (!isTarget(t) && Relaxed(next, dist, t))
    requires forall e :: e in queue && e != queue[i] ==> e in rest
    requires Relaxes(dist, queue[i].0, next(queue[i].1).value, dist', pushed)
    ensures forall t :: t in dist' ==> (dist'[t], t) in rest + pushed || (!isTarget(t) && Relaxed(next, dist', t))
  {
    var (c, s) := queue[i];
    forall t | t in dist' && (dist'[t], t) !in pushed ensures (dist'[t], t) in rest || (!isTarget(t) && Relaxed(next, dist', t)) {
      assert t in dist && dist'[t] == dist[t];
      if (dist[t], t) == (c, s) {
        assert Relaxed(next, dist', t);
      } else if (dist[t], t) !in queue {
        RelaxedKept(next, dist, dist', t);
      }
    }
  }

  /** Lowering other costs keeps a state relaxed. */
  lemma RelaxedKept<S>(next: S -> Option<seq<(S, nat)>>, dist: map<S, nat>, dist': map<S, nat>, t: S)
    requires t in dist && Relaxed(next, dist, t)
    requires forall u :: u in dist ==> u in dist' && dist'[u] <= dist[u]
    requires dist'[t] == dist[t]
    ensures Relaxed(next, dist', t)
  {
    forall step | step in next(t).value ensures step.0 in dist' && dist'[step.0] <= dist'[t] + step.1 {
      assert step.0 in dist;
    }
  }

  /** A route to s at cost c extended by an edge out of s is a route to its end. */
  lemma WitnessedStep<S(!new)>(next: S -> Option<seq<(S, nat)>>, source: S, s: S, c: nat, step: (S, nat))
    requires Witnessed(next, source, s, c) && Edge(next, s, step)
    ensures Witnessed(next, source, step.0, c + step.1)
  {
    var route :| Route(next, source, route) && End(source, route) == s && Cost(route) == c;
    var route' := route + [step];
    assert route'[..|route'| - 1] == route;
    assert Cost(route') == c + step.1;
    assert End(source, route') == step.0;
    forall k | 0 <= k < |route'| ensures Edge(next, Before(source, route', k), route'[k]) {
      if k < |route| {
        assert Before(source, route', k) == Before(source, route, k);
      } else {
        assert Before(source, route', k) == End(source, route);
      }
    }
    assert Route(next, source, route');
  }

  lemma Witness<S(!new)>(next: S -> Option<seq<(S, nat)>>, source: S, s: S, c: nat)
    requires Witnessed(next, source, s, c)
    ensures Reached(next, source, s)
  {
  }

  /** Following any route from the source, either some queued entry costs no more than the
      route, or its end is recorded at no more than the route's cost. */
  lemma {:induction false} Frontier<S(!new)>(next: S -> Option<seq<(S, nat)>>, source: S, isTarget: S -> bool, bound: set<S>, dist: map<S, nat>, queue: seq<(nat, S)>, route: seq<(S, nat)>)
    requires Labels(next, source, isTarget, bound, dist, queue) && Route(next, source, route)
    ensures (exists e :: e in queue && e.0 <= Cost(route)) || (End(source, route) in dist && dist[End(source, route)] <= Cost(route))
    decreases |route|
  {
    if route != [] {
      var front := route[..|route| - 1];
      var step := route[|route| - 1];
      forall k | 0 <= k < |front| ensures Edge(next, Before(source, front, k), front[k]) {
        assert Before(source, front, k) == Before(source, route, k);
      }
      Frontier(next, source, isTarget, bound, dist, queue, front);
      var p := End(source, front);
      assert Edge(next, p, step) by {
        assert Before(source, route, |front|) == p;
      }
      if p in dist && dist[p] <= Cost(front) && (dist[p], p) !in queue {
        assert Relaxed(next, dist, p);
      }
    }
  }

  /** A target popped as a least entry has the cost of a cheapest route to any target. */
  lemma Arrive<S(!new)>(next: S -> Option<seq<(S, nat)>>, source: S, isTarget: S -> bool, bound: set<S>, dist: map<S, nat>, queue: seq<(nat, S)>, i: nat)
    requires Labels(next, source, isTarget, bound, dist, queue)
    requires i < |queue| && isTarget(queue[i].1)
    requires forall j :: 0 <= j < |queue| ==> queue[i].0 <= queue[j].0
    ensures Best(next, source, isTarget, queue[i].0)
  {
    var (c, s) := queue[i];
    assert Witnessed(next, source, s, c);
    forall route | Route(next, source, route) && isTarget(End(source, route)) ensures c <= Cost(route) {
      Frontier(next, source, isTarget, bound, dist, queue, route);
      var t := End(source, route);
      if t in dist && dist[t] <= Cost(route) {
        assert (dist[t], t) in queue;
      }
      var e :| e in queue && e.0 <= Cost(route);
      var j :| 0 <= j < |queue| && queue[j] == e;
    }
  }

  /** With the queue empty every recorded cost is a cheapest one, the recorded states are
      exactly the reachable ones, and no target is reachable. */
  lemma Exhaust<S(!new)>(next: S -> Option<seq<(S, nat)>>, source: S, isTarget: S -> bool, bound: set<S>, dist: map<S, nat>)
    requires Labels(next, source, isTarget, bound, dist, [])
    ensures forall route :: Route(next, source, route) ==> !isTarget(End(source, route))
    ensures forall s :: s in dist <==> Reached(next, source, s)
    ensures forall s :: s in dist ==> Shortest(next, source, s, dist[s]) && next(s).Some?
  {
    forall route | Route(next, source, route) ensures End(source, route) in dist && dist[End(source, route)] <= Cost(route) {
      Frontier(next, source, isTarget, bound, dist, [], route);
    }
    forall s | s in dist ensures Reached(next, source, s) {
      assert Witnessed(next, source, s, dist[s]);
    }
  }
}
