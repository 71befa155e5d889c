/** The breadth-first worklist shared by several solvers: a set of seen nodes and a FIFO
    queue, both seeded with the start; a dequeued node's neighbours that are not seen yet
    are queued and marked seen. Neighbours are given as a function, so each solver's own
    filter (bounds, walls, removed edges) is part of it. */
module Search {

  /** Consecutive nodes of the path are neighbours. */
  ghost predicate IsPath<T>(next: T -> seq<T>, path: seq<T>) {
    |path| >= 1 && forall k :: 0 <= k < |path| - 1 ==> path[k + 1] in next(path[k])
  }

  ghost predicate PathFrom<T>(next: T -> seq<T>, path: seq<T>, start: T, x: T) {
    IsPath(next, path) && path[0] == start && path[|path| - 1] == x
  }

  /** x can be reached from start by following neighbours. */
  ghost predicate Reachable<T(!new)>(next: T -> seq<T>, start: T, x: T) {
    exists path :: PathFrom(next, path, start, x)
  }

  /** Every neighbour of a member is a member. */
  ghost predicate Closed<T>(next: T -> seq<T>, s: set<T>) {
    forall x, y :: x in s && y in next(x) ==> y in s
  }

  /** A closed set holding the start holds every node reachable from it, so a closed set
      of reachable nodes is the least closed set holding the start. */
  lemma ReachableInClosed<T(!new)>(next: T -> seq<T>, start: T, s: set<T>, x: T)
    requires start in s && Closed(next, s) && Reachable(next, start, x)
    ensures x in s
  {
    var path :| PathFrom(next, path, start, x);
    PathInClosed(next, path, s);
  }

  lemma {:induction false} PathInClosed<T>(next: T -> seq<T>, path: seq<T>, s: set<T>)
    requires IsPath(next, path) && path[0] in s && Closed(next, s)
    ensures forall k :: 0 <= k < |path| ==> path[k] in s
    decreases |path|
  {
    if |path| > 1 {
      var front := path[..|path| - 1];
      assert IsPath(next, front);
      PathInClosed(next, front, s);
      assert path[|path| - 2] == front[|path| - 2];
    }
  }

  /** No element occurs twice. */
  predicate Distinct<T(==)>(s: seq<T>) {
    forall i, j :: 0 <= i < j < |s| ==> s[i] != s[j]
  }

  /** The state of the worklist loop: `order` lists the nodes queued so far, which are
      exactly the seen nodes, each once; the first `done` of them have been dequeued and
      had all their neighbours seen; every seen node is reachable from the start. */
  ghost predicate Worklist<T(!new)>(next: T -> seq<T>, start: T, bound: set<T>, seen: set<T>, order: seq<T>, done: nat) {
    seen <= bound && start in seen && done <= |order| && Distinct(order) &&
    (forall i :: 0 <= i < |order| ==> order[i] in seen) &&
    (forall x :: x in seen ==> x in order) &&
    (forall k, y :: 0 <= k < done && y in next(order[k]) ==> y in seen) &&
    Least(next, start, seen)
  }

  /** s lies within every closed set that holds the start. */
  ghost predicate Least<T(!new)>(next: T -> seq<T>, start: T, s: set<T>) {
    forall c: set<T> :: start in c && Closed(next, c) ==> s <= c
  }

  /** A set within every closed set holding the start holds only reachable nodes: the
      reachable part of a finite closed bound is itself closed. */
  lemma LeastReachable<T(!new)>(next: T -> seq<T>, start: T, bound: set<T>, s: set<T>)
    requires start in bound && Closed(next, bound) && Least(next, start, s)
    ensures forall x :: x in s ==> Reachable(next, start, x)
  {
    var c := set x | x in bound && Reachable(next, start, x);
    assert PathFrom(next, [start], start, start);
    forall x, y | x in c && y in next(x) ensures y in c {
      var path :| PathFrom(next, path, start, x);
      Extend(next, path, start, x, y);
    }
    assert start in c && Closed(next, c);
  }

  /** Dequeuing the node `order[done]` and queueing its unseen neighbours `added` keeps the
      worklist state, one more node being done. */
  lemma Absorb<T(!new)>(next: T -> seq<T>, start: T, bound: set<T>, seen: set<T>, order: seq<T>, done: nat, added: seq<T>, seen': set<T>)
    requires Worklist(next, start, bound, seen, order, done) && Closed(next, bound) && done < |order|
    requires Distinct(added) && forall y :: y in added <==> y in next(order[done]) && y !in seen
    requires forall y :: y in seen' <==> y in seen || y in next(order[done])
    ensures Worklist(next, start, bound, seen', order + added, done + 1)
    ensures seen' == seen ==> added == []
    ensures seen' != seen ==> |bound - seen'| < |bound - seen|
  {
    var x := order[done];
    assert x in seen;
    LeastNeighbours(next, start, seen, x, seen');
    AppendDistinct(order, added, seen);
    AppendMembers(order, added, seen, seen');
    AppendDone(next, order, added, done, seen, seen');
    if added != [] {
      assert added[0] in seen' - seen;
    }
    if seen' != seen {
      Shrink(bound, seen, seen');
    }
  }

  lemma LeastNeighbours<T(!new)>(next: T -> seq<T>, start: T, seen: set<T>, x: T, seen': set<T>)
    requires x in seen && Least(next, start, seen)
    requires forall y :: y in seen' <==> y in seen || y in next(x)
    ensures Least(next, start, seen')
  {
    forall c: set<T> | start in c && Closed(next, c) ensures seen' <= c {
      assert x in c;
    }
  }

  lemma AppendDistinct<T>(order: seq<T>, added: seq<T>, seen: set<T>)
    requires Distinct(order) && Distinct(added)
    requires forall i :: 0 <= i < |order| ==> order[i] in seen
    requires forall y :: y in added ==> y !in seen
    ensures Distinct(order + added)
  {
    var o := order + added;
    forall i, j | 0 <= i < j < |o| ensures o[i] != o[j] {
      if i < |order| && j >= |order| {
        assert o[i] in seen && o[j] == added[j - |order|];
      }
    }
  }

  lemma AppendMembers<T>(order: seq<T>, added: seq<T>, seen: set<T>, seen': set<T>)
    requires forall i :: 0 <= i < |order| ==> order[i] in seen
    requires forall x :: x in seen ==> x in order
    requires seen <= seen' && forall y :: y in added ==> y in seen'
    requires forall y :: y in seen' && y !in seen ==> y in added
    ensures forall i :: 0 <= i < |order + added| ==> (order + added)[i] in seen'
    ensures forall x :: x in seen' ==> x in order + added
  {
    var o := order + added;
    forall i | 0 <= i < |o| ensures o[i] in seen' {
      if i >= |order| {
        assert o[i] == added[i - |order|];
      }
    }
  }

  lemma AppendDone<T>(next: T -> seq<T>, order: seq<T>, added: seq<T>, done: nat, seen: set<T>, seen': set<T>)
    requires done < |order| && seen <= seen'
    requires forall k, y :: 0 <= k < done && y in next(order[k]) ==> y in seen
    requires forall y :: y in next(order[done]) ==> y in seen'
    ensures forall k, y :: 0 <= k < done + 1 && y in next((order + added)[k]) ==> y in seen'
  {
    var o := order + added;
    forall k, y | 0 <= k < done + 1 && y in next(o[k]) ensures y in seen' {
      assert o[k] == order[k];
    }
  }

  lemma Shrink<T>(bound: set<T>, seen: set<T>, seen': set<T>)
    requires seen <= seen' <= bound && seen' != seen
    ensures |bound - seen'| < |bound - seen|
  {
    var y :| y in seen' && y !in seen;
    var smaller, larger := bound - seen', bound - seen;
    assert smaller <= larger;
    assert y in larger - smaller;
    assert |larger - smaller| == |larger| - |smaller|;
  }

  /** The worklist loop. `bound` is a finite closed set holding the start; it only serves
      the termination argument. The result holds the start and exactly the nodes
      reachable from it. `order` is the sequence of queued nodes: every seen node, each
      queued once. */
  method Explore<T(==,!new)>(start: T, next: T -> seq<T>, ghost bound: set<T>) returns (seen: set<T>, ghost order: seq<T>)
    requires start in bound && Closed(next, bound)
    ensures start in seen && seen <= bound
    ensures Closed(next, seen)
    ensures Least(next, start, seen)
    ensures forall x :: x in seen <==> Reachable(next, start, x)
    ensures Distinct(order) && forall x :: x in seen <==> x in order
  {
    seen := {start};
    var queue := [start];
    order := [start];
    ghost var done := 0;
    while queue != []
      invariant Worklist(next, start, bound, seen, order, done)
      invariant queue == order[done..]
      decreases |bound - seen|, |queue|
    {
      var x := queue[0];
      ghost var added;
      var seen';
      seen', queue, added := Enqueue(next(x), seen, queue[1..]);
      Absorb(next, start, bound, seen, order, done, added, seen');
      DropAppend(order, done + 1, added);
      seen, order, done := seen', order + added, done + 1;
    }
    forall x, y | x in seen && y in next(x) ensures y in seen {
      var k :| 0 <= k < |order| && order[k] == x;
    }
    LeastReachable(next, start, bound, seen);
    forall x | Reachable(next, start, x) ensures x in seen {
      ReachableInClosed(next, start, seen, x);
    }
  }

  /** Marks every node of `ns` seen, queueing each one that was not seen before, in the
      order of `ns`; `added` is what was queued. */
  method Enqueue<T(==)>(ns: seq<T>, seen: set<T>, queue: seq<T>) returns (seen': set<T>, queue': seq<T>, ghost added: seq<T>)
    ensures forall y :: y in seen' <==> y in seen || y in ns
    ensures queue' == queue + added
    ensures Distinct(added) && forall y :: y in added <==> y in ns && y !in seen
  {
    seen', queue', added := seen, queue, [];
    var k := 0;
    while k < |ns|
      invariant k <= |ns|
      invariant forall y :: y in seen' <==> y in seen || y in ns[..k]
      invariant queue' == queue + added
      invariant Distinct(added) && forall y :: y in added <==> y in ns[..k] && y !in seen
    {
      var y := ns[k];
      assert ns[..k + 1] == ns[..k] + [y];
      if y !in seen' {
        queue', added := queue' + [y], added + [y];
        seen' := seen' + {y};
      }
      k := k + 1;
    }
    assert ns[..k] == ns;
  }

  lemma DropAppend<T>(s: seq<T>, i: nat, t: seq<T>)
    requires i <= |s|
    ensures (s + t)[i..] == s[i..] + t
  {
  }

  /** A path to x followed by a neighbour of x is a path to that neighbour. */
  lemma Extend<T>(next: T -> seq<T>, path: seq<T>, start: T, x: T, y: T)
    requires PathFrom(next, path, start, x) && y in next(x)
    ensures PathFrom(next, path + [y], start, y)
  {
    var p := path + [y];
    forall k | 0 <= k < |p| - 1 ensures p[k + 1] in next(p[k]) {
      if k < |path| - 1 {
        assert p[k] == path[k] && p[k + 1] == path[k + 1];
      }
    }
  }
}
