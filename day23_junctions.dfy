/** Part 2 of day 23: slopes count as paths. The maze is contracted into a graph whose nodes
    are the source and the cells where corridors meet or end, joined by edges weighing the
    corridor's length; then every simple path from the source is searched for the longest
    one reaching the target. */
module Day23Junctions {
  import opened Wrappers
  import opened Day23
  import Dijkstra

  /** The non-reverse moves from pos to an open cell, in direction order (the `neighbors`
      of the corridor walk). Unlike part 1, neither slopes nor the map's size restrict them. */
  function Exits(tiles: Tiles, pos: Cell, dir: Direction, ds: seq<Direction>): seq<(Cell, Direction)> {
    if ds == [] then []
    else
      var d := ds[0];
      var keep := d != Reverse(dir) && Step(d, pos).Some? && Open(tiles, Step(d, pos).value);
      (if keep then [(Step(d, pos).value, d)] else []) + Exits(tiles, pos, dir, ds[1..])
  }

  /** The exits are exactly the non-reverse steps onto open cells. */
  lemma {:induction false} ExitsAre(tiles: Tiles, pos: Cell, dir: Direction, ds: seq<Direction>)
    ensures forall e :: e in Exits(tiles, pos, dir, ds) <==> e.1 in ds && e.1 != Reverse(dir) && Step(e.1, pos) == Some(e.0) && Open(tiles, e.0)
  {
    if ds != [] {
      ExitsAre(tiles, pos, dir, ds[1..]);
      assert forall d :: d in ds <==> d == ds[0] || d in ds[1..];
    }
  }

  /** A walked corridor: where it ends, the direction it arrived in, its length and the exits
      at its end. */
  datatype Run = Run(end: Cell, dir: Direction, length: nat, exits: seq<(Cell, Direction)>)

  /** The corridor walk from pos, having arrived in direction dir after `length` cells: it
      follows the only exit while there is exactly one. A corridor that closes on itself
      never ends; `fuel` bounds the number of cells followed. */
  function Corridor(tiles: Tiles, pos: Cell, dir: Direction, length: nat, fuel: nat): (r: Option<Run>)
    ensures r.Some? ==> r.value.exits == Exits(tiles, r.value.end, r.value.dir, Directions) && |r.value.exits| != 1
    ensures r.Some? ==> length <= r.value.length < length + fuel
    decreases fuel
  {
    if fuel == 0 then None
    else
      var ns := Exits(tiles, pos, dir, Directions);
      if |ns| == 1 then Corridor(tiles, ns[0].0, ns[0].1, length + 1, fuel - 1)
      else Some(Run(pos, dir, length, ns))
  }

  /** The inner loop of `part2`: walk from a position, counting it as length 1. */
  method Walk(tiles: Tiles, position: Cell, direction: Direction, ghost fuel: nat) returns (run: Run)
    requires Corridor(tiles, position, direction, 1, fuel).Some?
    ensures run == Corridor(tiles, position, direction, 1, fuel).value
    ensures run.exits == Exits(tiles, run.end, run.dir, Directions) && |run.exits| != 1
  {
    var distance, current, heading := 1, position, direction;
    ghost var f := fuel;
    while true
      invariant Corridor(tiles, current, heading, distance, f) == Corridor(tiles, position, direction, 1, fuel)
      decreases f
    {
      var neighbors := Exits(tiles, current, heading, Directions);
      if |neighbors| == 1 {
        current, heading := neighbors[0].0, neighbors[0].1;
        distance := distance + 1;
        f := f - 1;
      } else {
        return Run(current, heading, distance, neighbors);
      }
    }
  }

  /** The junction graph: for each node, the (node, length) pairs of its corridors. */
  type Connections = map<Cell, seq<(Cell, nat)>>

  /** `entry(a).or_insert_with(Vec::new).push(e)`. */
  function Push(conns: Connections, a: Cell, e: (Cell, nat)): Connections {
    conns[a := (if a in conns then conns[a] else []) + [e]]
  }

  /** A push adds its entry under its key and keeps every other entry. */
  lemma Pushed(conns: Connections, a: Cell, e: (Cell, nat))
    ensures Push(conns, a, e).Keys == conns.Keys + {a}
    ensures forall b, x :: b in conns && x in conns[b] ==> x in Push(conns, a, e)[b]
    ensures forall x :: x in Push(conns, a, e)[a] <==> x == e || (a in conns && x in conns[a])
  {
  }

  /** Every corridor is recorded at both of its ends with the same length. */
  ghost predicate Symmetric(conns: Connections) {
    forall a, e :: a in conns && e in conns[a] ==> e.0 in conns && (a, e.1) in conns[e.0]
  }

  /** Recording a corridor at both ends keeps the graph symmetric. */
  lemma Link(conns: Connections, a: Cell, b: Cell, d: nat)
    ensures Symmetric(conns) ==> Symmetric(Push(Push(conns, a, (b, d)), b, (a, d)))
  {
    var once := Push(conns, a, (b, d));
    var twice := Push(once, b, (a, d));
    if Symmetric(conns) {
      Linked(conns, a, b, d, once, twice);
    }
  }

  lemma Linked(conns: Connections, a: Cell, b: Cell, d: nat, once: Connections, twice: Connections)
    requires Symmetric(conns) && once == Push(conns, a, (b, d)) && twice == Push(once, b, (a, d))
    ensures Symmetric(twice)
  {
    Pushed(conns, a, (b, d));
    Pushed(once, b, (a, d));
    forall x: Cell, e: (Cell, nat) | x in twice && e in twice[x] ensures e.0 in twice && (x, e.1) in twice[e.0] {
      if x in conns && e in conns[x] {
        assert (x, e.1) in conns[e.0];
        assert (x, e.1) in once[e.0];
      } else if x == a && e == (b, d) {
        assert (a, d) in twice[b];
      } else {
        assert x == b && e == (a, d);
        assert (b, d) in once[a];
      }
    }
  }

  /** A corridor still to walk: the node it leaves, its first cell and the direction into it. */
  datatype Pending = Pending(from: Cell, position: Cell, direction: Direction)

  /** The corridors queued at a corridor's end: one per exit not yet visited, in order. */
  function Onward(exits: seq<(Cell, Direction)>, visited: set<Cell>, end: Cell): seq<Pending> {
    if exits == [] then []
    else
      var (q, d) := exits[0];
      (if q !in visited then [Pending(end, q, d)] else []) + Onward(exits[1..], visited, end)
  }

  /** The queued corridors are exactly the unvisited exits, leaving from the end. */
  lemma {:induction false} OnwardAre(exits: seq<(Cell, Direction)>, visited: set<Cell>, end: Cell)
    ensures forall p :: p in Onward(exits, visited, end) <==> p.from == end && (p.position, p.direction) in exits && p.position !in visited
  {
    if exits != [] {
      OnwardAre(exits[1..], visited, end);
      assert forall x :: x in exits <==> x == exits[0] || x in exits[1..];
    }
  }

  /** The contraction loop of `part2`, one queued corridor per round, first in first out:
      mark its first cell visited, walk it, record it at both ends, and queue the unvisited
      exits at its end. `fuel` bounds the rounds and each walk. */
  function Contract(tiles: Tiles, queue: seq<Pending>, visited: set<Cell>, conns: Connections, fuel: nat): Option<Connections>
    decreases fuel
  {
    if queue == [] then Some(conns)
    else if fuel == 0 then None
    else
      var job := queue[0];
      var visited' := visited + {job.position};
      match Corridor(tiles, job.position, job.direction, 1, fuel)
      case None => None
      case Some(run) =>
        var conns' := Push(Push(conns, job.from, (run.end, run.length)), run.end, (job.from, run.length));
        Contract(tiles, queue[1..] + Onward(run.exits, visited', run.end), visited', conns', fuel - 1)
  }

  /** The contraction keeps the graph symmetric, only adds nodes, and records the node each
      queued corridor leaves. */
  lemma {:induction false} ContractKeeps(tiles: Tiles, queue: seq<Pending>, visited: set<Cell>, conns: Connections, fuel: nat)
    requires Contract(tiles, queue, visited, conns, fuel).Some?
    ensures Symmetric(conns) ==> Symmetric(Contract(tiles, queue, visited, conns, fuel).value)
    ensures conns.Keys <= Contract(tiles, queue, visited, conns, fuel).value.Keys
    ensures queue != [] ==> queue[0].from in Contract(tiles, queue, visited, conns, fuel).value
    decreases fuel
  {
    if queue != [] {
      var job := queue[0];
      var visited' := visited + {job.position};
      var run := Corridor(tiles, job.position, job.direction, 1, fuel).value;
      var once := Push(conns, job.from, (run.end, run.length));
      var twice := Push(once, run.end, (job.from, run.length));
      Link(conns, job.from, run.end, run.length);
      Pushed(conns, job.from, (run.end, run.length));
      Pushed(once, run.end, (job.from, run.length));
      ContractKeeps(tiles, queue[1..] + Onward(run.exits, visited', run.end), visited', twice, fuel - 1);
    }
  }

  /** The first corridor: from the source, south. */
  function Initial(source: Cell): seq<Pending> {
    [Pending(source, Step(South, source).value, South)]
  }

  /** The contracted graph of the maze seen from the source. */
  function Contracted(tiles: Tiles, source: Cell, fuel: nat): Option<Connections> {
    Contract(tiles, Initial(source), {source}, map[], fuel)
  }

  /** The contraction of `part2`, from the source. */
  method ContractMaze(tiles: Tiles, source: Cell, ghost fuel: nat) returns (conns: Connections)
    requires Contracted(tiles, source, fuel).Some?
    ensures conns == Contracted(tiles, source, fuel).value
    ensures Symmetric(conns) && source in conns
  {
    conns := ContractLoop(tiles, [Pending(source, Step(South, source).value, South)], {source}, map[], fuel);
    assert Symmetric(map[]);
    ContractKeeps(tiles, Initial(source), {source}, map[], fuel);
  }

  /** The contraction loop of `part2`, run until the queue is empty. */
  method ContractLoop(tiles: Tiles, queue: seq<Pending>, visited: set<Cell>, conns: Connections, ghost fuel: nat)
    returns (conns': Connections)
    requires Contract(tiles, queue, visited, conns, fuel).Some?
    ensures conns' == Contract(tiles, queue, visited, conns, fuel).value
  {
    var q, v := queue, visited;
    conns' := conns;
    ghost var f, goal := fuel, Contract(tiles, queue, visited, conns, fuel);
    while q != []
      invariant Contract(tiles, q, v, conns', f) == goal
      decreases f
    {
      q, v, conns', f := ContractRound(tiles, q, v, conns', f, goal);
    }
  }

  /** One pass of the contraction loop: walk the first queued corridor, connect its two
      ends both ways, and queue the unvisited exits at its far end. */
  method ContractRound(tiles: Tiles, queue: seq<Pending>, visited: set<Cell>, conns: Connections, ghost fuel: nat, ghost goal: Option<Connections>)
    returns (queue': seq<Pending>, visited': set<Cell>, conns': Connections, ghost fuel': nat)
    requires queue != [] && goal.Some? && Contract(tiles, queue, visited, conns, fuel) == goal
    ensures fuel' < fuel && Contract(tiles, queue', visited', conns', fuel') == goal
  {
    fuel' := fuel - 1;
    Advance(tiles, queue, visited, conns, fuel);
    var job := queue[0];
    visited' := visited + {job.position};
    var run := Walk(tiles, job.position, job.direction, fuel);
    conns' := Push(conns, job.from, (run.end, run.length));
    conns' := Push(conns', run.end, (job.from, run.length));
    queue' := Enqueue(queue[1..], run.exits, visited', run.end);
    Round(tiles, queue, visited, conns, fuel, run, queue', visited', conns');
  }

  /** One round of the contraction loop. */
  lemma Advance(tiles: Tiles, queue: seq<Pending>, visited: set<Cell>, conns: Connections, fuel: nat)
    requires queue != [] && Contract(tiles, queue, visited, conns, fuel).Some?
    ensures fuel > 0 && Corridor(tiles, queue[0].position, queue[0].direction, 1, fuel).Some?
  {
  }

  lemma Round(tiles: Tiles, queue: seq<Pending>, visited: set<Cell>, conns: Connections, fuel: nat, run: Run, queue': seq<Pending>, visited': set<Cell>, conns': Connections)
    requires queue != [] && fuel > 0 && Corridor(tiles, queue[0].position, queue[0].direction, 1, fuel) == Some(run)
    requires visited' == visited + {queue[0].position}
    requires conns' == Push(Push(conns, queue[0].from, (run.end, run.length)), run.end, (queue[0].from, run.length))
    requires queue' == queue[1..] + Onward(run.exits, visited', run.end)
    ensures Contract(tiles, queue, visited, conns, fuel) == Contract(tiles, queue', visited', conns', fuel - 1)
  {
  }

  /** The loop of `part2` queueing the exits not yet visited at a corridor's end. */
  method Enqueue(queue: seq<Pending>, exits: seq<(Cell, Direction)>, visited: set<Cell>, end: Cell) returns (queue': seq<Pending>)
    ensures queue' == queue + Onward(exits, visited, end)
  {
    queue' := queue;
    for k := 0 to |exits|
      invariant queue' == queue + Onward(exits[..k], visited, end)
    {
      var (q, d) := exits[k];
      OnwardStep(exits, visited, end, k);
      if q !in visited {
        queue' := queue' + [Pending(end, q, d)];
      }
    }
    assert exits[..|exits|] == exits;
  }

  lemma {:induction false} OnwardStep(exits: seq<(Cell, Direction)>, visited: set<Cell>, end: Cell, k: nat)
    requires k < |exits|
    ensures Onward(exits[..k + 1], visited, end) ==
      Onward(exits[..k], visited, end) + (if exits[k].0 !in visited then [Pending(end, exits[k].0, exits[k].1)] else [])
    decreases k
  {
    if k > 0 {
      assert exits[..k + 1][1..] == exits[1..][..k];
      assert exits[..k][1..] == exits[1..][..k - 1];
      OnwardStep(exits[1..], visited, end, k - 1);
    }
  }

  /** The graph's edges; a node without an entry has none (`unwrap` panics there). */
  function Graph(conns: Connections): Cell -> Option<seq<(Cell, nat)>> {
    c => if c in conns then Some(conns[c]) else None
  }

  /** Every corridor's far end has an entry of its own. */
  predicate Closed(conns: Connections) {
    forall a, e :: a in conns && e in conns[a] ==> e.0 in conns
  }

  lemma SymmetricClosed(conns: Connections)
    requires Symmetric(conns)
    ensures Closed(conns)
  {
  }

  function Last(path: seq<Cell>): Cell
    requires path != []
  {
    path[|path| - 1]
  }

  /** The nodes not on the path. */
  function Remaining(conns: Connections, path: seq<Cell>): set<Cell> {
    conns.Keys - set c | c in path
  }

  lemma Shrinks(conns: Connections, path: seq<Cell>, c: Cell)
    requires c in conns && c !in path
    ensures |Remaining(conns, path + [c])| < |Remaining(conns, path)|
  {
    assert Remaining(conns, path + [c]) == Remaining(conns, path) - {c};
  }

  /** The corridors from a node to nodes not yet on the path, in order. */
  function Unvisited(es: seq<(Cell, nat)>, path: seq<Cell>): (r: seq<(Cell, nat)>)
    ensures forall e :: e in r <==> e in es && e.0 !in path
  {
    if es == [] then []
    else (if es[0].0 !in path then [es[0]] else []) + Unvisited(es[1..], path)
  }

  function Max(a: nat, b: nat): nat {
    if a >= b then a else b
  }

  /** What `dfs_impl` returns without its cache: the distance so far at the target; 0 when
      the node the target's first corridor leads to is already on the path and is not the
      current node; otherwise the best over the corridors to unvisited nodes. */
  function Search(conns: Connections, path: seq<Cell>, target: Cell, distance: nat): nat
    requires path != [] && Closed(conns) && Last(path) in conns && target in conns && conns[target] != []
    decreases |Remaining(conns, path)|, 1, 0
  {
    var current := Last(path);
    if current == target then distance
    else
      var linked := conns[target][0].0;
      if linked != current && linked in path then 0
      else Branches(conns, path, target, distance, Unvisited(conns[current], path))
  }

  /** The best over the corridors ns out of the current node, 0 without any. */
  function Branches(conns: Connections, path: seq<Cell>, target: Cell, distance: nat, ns: seq<(Cell, nat)>): nat
    requires path != [] && Closed(conns) && target in conns && conns[target] != []
    requires forall e :: e in ns ==> e.0 in conns && e.0 !in path
    decreases |Remaining(conns, path)|, 0, |ns|
  {
    if ns == [] then 0
    else
      var e := ns[|ns| - 1];
      Shrinks(conns, path, e.0);
      Max(Branches(conns, path, target, distance, ns[..|ns| - 1]), Search(conns, path + [e.0], target, distance + e.1))
  }

  /** Taking one more corridor into account maximises with the search along it. */
  lemma BranchesStep(conns: Connections, path: seq<Cell>, target: Cell, distance: nat, ns: seq<(Cell, nat)>, k: nat)
    requires path != [] && Closed(conns) && target in conns && conns[target] != []
    requires forall e :: e in ns ==> e.0 in conns && e.0 !in path
    requires k < |ns|
    ensures ns[k].0 in conns && ns[k].0 !in path
    ensures Branches(conns, path, target, distance, ns[..k + 1])
      == Max(Branches(conns, path, target, distance, ns[..k]), Search(conns, path + [ns[k].0], target, distance + ns[k].1))
  {
    assert ns[k] in ns;
    assert ns[..k + 1][..k] == ns[..k];
    assert ns[..k + 1][k] == ns[k];
  }

  /** The search of `dfs`: `path` is the stack of nodes from the source to the current one. */
  class Explorer {
    var path: seq<Cell>

    constructor (source: Cell)
      ensures path == [source]
    {
      path := [source];
    }

    /** `dfs_impl` without the cache: each branch pushes an unvisited node and pops it
        again, so the path is unchanged on return. */
    method Dfs(conns: Connections, target: Cell, distance: nat) returns (best: nat)
      requires path != [] && Closed(conns) && Last(path) in conns && target in conns && conns[target] != []
      modifies this
      ensures path == old(path)
      ensures best == Search(conns, path, target, distance)
      decreases |Remaining(conns, path)|, 1
    {
      var current := path[|path| - 1];
      if current == target {
        return distance;
      }
      var linked := conns[target][0].0;
      if linked != current && linked in path {
        return 0;
      }
      best := Explore(conns, target, distance, Unvisited(conns[current], path));
    }

    /** The loop of `dfs_impl` over the corridors to unvisited nodes. */
    method Explore(conns: Connections, target: Cell, distance: nat, neighbors: seq<(Cell, nat)>) returns (best: nat)
      requires path != [] && Closed(conns) && target in conns && conns[target] != []
      requires forall e :: e in neighbors ==> e.0 in conns && e.0 !in path
      modifies this
      ensures path == old(path)
      ensures best == Branches(conns, path, target, distance, neighbors)
      decreases |Remaining(conns, path)|, 0
    {
      best := 0;
      ghost var start := path;
      for k := 0 to |neighbors|
        invariant path == start
        invariant best == Branches(conns, start, target, distance, neighbors[..k])
      {
        var (n, w) := neighbors[k];
        BranchesStep(conns, start, target, distance, neighbors, k);
        Shrinks(conns, start, n);
        path := path + [n];
        var b := Dfs(conns, target, distance + w);
        best := Max(best, b);
        path := path[..|path| - 1];
        assert path == start;
      }
      assert neighbors[..|neighbors|] == neighbors;
    }
  }

  /** `dfs`: the search from a path holding only the source, at distance 0. */
  method DepthFirst(conns: Connections, source: Cell, target: Cell) returns (best: nat)
    requires Closed(conns) && source in conns && target in conns && conns[target] != []
    ensures best == Search(conns, [source], target, 0)
  {
    var explorer := new Explorer(source);
    best := explorer.Dfs(conns, target, 0);
  }

  /** The steps of ext visit nodes not on the path, none twice. */
  ghost predicate Fresh(path: seq<Cell>, ext: seq<(Cell, nat)>) {
    (forall k :: 0 <= k < |ext| ==> ext[k].0 !in path) &&
    (forall i, j :: 0 <= i < j < |ext| ==> ext[i].0 != ext[j].0)
  }

  /** ext continues the path along corridors to new nodes only. */
  ghost predicate Trail(conns: Connections, path: seq<Cell>, ext: seq<(Cell, nat)>)
    requires path != []
  {
    Dijkstra.Route(Graph(conns), Last(path), ext) && Fresh(path, ext)
  }

  /** Some continuation of the path reaches the target with total length v. */
  ghost predicate Achieves(conns: Connections, path: seq<Cell>, target: Cell, v: nat)
    requires path != []
  {
    exists ext :: Trail(conns, path, ext) && Dijkstra.End(Last(path), ext) == target && Dijkstra.Cost(ext) == v
  }

  /** The best over the branches is 0 or the value of one of them. */
  lemma {:induction false} BranchesPick(conns: Connections, path: seq<Cell>, target: Cell, distance: nat, ns: seq<(Cell, nat)>)
    requires path != [] && Closed(conns) && target in conns && conns[target] != []
    requires forall e :: e in ns ==> e.0 in conns && e.0 !in path
    ensures Branches(conns, path, target, distance, ns) == 0 ||
      exists e :: e in ns && Branches(conns, path, target, distance, ns) == Search(conns, path + [e.0], target, distance + e.1)
    decreases |ns|
  {
    if ns != [] {
      BranchesPick(conns, path, target, distance, ns[..|ns| - 1]);
      if Branches(conns, path, target, distance, ns[..|ns| - 1]) != 0 {
        var e :| e in ns[..|ns| - 1] && Branches(conns, path, target, distance, ns[..|ns| - 1]) == Search(conns, path + [e.0], target, distance + e.1);
        assert e in ns;
      }
      assert ns[|ns| - 1] in ns;
    }
  }

  /** The best over the branches is at least the value of each. */
  lemma {:induction false} BranchesAbove(conns: Connections, path: seq<Cell>, target: Cell, distance: nat, ns: seq<(Cell, nat)>, e: (Cell, nat))
    requires path != [] && Closed(conns) && target in conns && conns[target] != []
    requires forall e :: e in ns ==> e.0 in conns && e.0 !in path
    requires e in ns
    ensures Search(conns, path + [e.0], target, distance + e.1) <= Branches(conns, path, target, distance, ns)
    decreases |ns|
  {
    if e != ns[|ns| - 1] {
      assert e in ns[..|ns| - 1];
      BranchesAbove(conns, path, target, distance, ns[..|ns| - 1], e);
    }
  }

  /** Soundness: the search returns 0 or the distance so far plus the length of a simple
      continuation that reaches the target. */
  lemma {:induction false} SearchSound(conns: Connections, path: seq<Cell>, target: Cell, distance: nat)
    requires path != [] && Closed(conns) && Last(path) in conns && target in conns && conns[target] != []
    ensures Search(conns, path, target, distance) == 0 || Reaches(conns, path, target, distance, Search(conns, path, target, distance))
    decreases |Remaining(conns, path)|, 1
  {
    var current := Last(path);
    var v := Search(conns, path, target, distance);
    if current == target {
      assert Trail(conns, path, []) && Dijkstra.End(current, []) == target && Dijkstra.Cost<Cell>([]) == 0;
      assert Reaches(conns, path, target, distance, v);
    } else if v != 0 {
      var ns := Unvisited(conns[current], path);
      BranchesPick(conns, path, target, distance, ns);
      var e :| e in ns && v == Search(conns, path + [e.0], target, distance + e.1);
      SoundStep(conns, path, target, distance, e, v);
    }
  }

  /** The inductive step of SearchSound: a nonzero best along a corridor to a new node. */
  lemma {:induction false} SoundStep(conns: Connections, path: seq<Cell>, target: Cell, distance: nat, e: (Cell, nat), v: nat)
    requires path != [] && Closed(conns) && Last(path) in conns && target in conns && conns[target] != []
    requires e in conns[Last(path)] && e.0 !in path
    requires v != 0 && v == Search(conns, path + [e.0], target, distance + e.1)
    ensures Reaches(conns, path, target, distance, v)
    decreases |Remaining(conns, path)|, 0
  {
    var longer := path + [e.0];
    assert Last(longer) == e.0;
    Shrinks(conns, path, e.0);
    SearchSound(conns, longer, target, distance + e.1);
    ReachStep(conns, path, target, distance, e, v);
  }

  /** A corridor to a new node in front of a continuation that reaches the target is a
      continuation too. */
  lemma ReachStep(conns: Connections, path: seq<Cell>, target: Cell, distance: nat, e: (Cell, nat), v: nat)
    requires path != [] && Last(path) in conns && e in conns[Last(path)] && e.0 !in path
    requires Reaches(conns, path + [e.0], target, distance + e.1, v)
    ensures Reaches(conns, path, target, distance, v)
  {
    var longer := path + [e.0];
    var rest :| Trail(conns, longer, rest) && Dijkstra.End(Last(longer), rest) == target && Dijkstra.Cost(rest) == v - (distance + e.1);
    assert Last(longer) == e.0;
    Extend(conns, path, e, rest);
    assert Trail(conns, path, [e] + rest) && Dijkstra.End(Last(path), [e] + rest) == target && Dijkstra.Cost([e] + rest) == v - distance;
  }

  /** The search's value v is the distance so far plus the length of some continuation. */
  ghost predicate Reaches(conns: Connections, path: seq<Cell>, target: Cell, distance: nat, v: nat)
    requires path != []
  {
    v >= distance && Achieves(conns, path, target, v - distance)
  }

  /** A corridor to a new node followed by a simple continuation from there is a simple
      continuation of the path. */
  lemma Extend(conns: Connections, path: seq<Cell>, e: (Cell, nat), rest: seq<(Cell, nat)>)
    requires path != [] && Last(path) in conns && e in conns[Last(path)] && e.0 !in path
    requires Trail(conns, path + [e.0], rest)
    ensures Trail(conns, path, [e] + rest)
    ensures Dijkstra.Cost([e] + rest) == e.1 + Dijkstra.Cost(rest)
    ensures Dijkstra.End(Last(path), [e] + rest) == Dijkstra.End(e.0, rest)
  {
    assert Last(path + [e.0]) == e.0;
    assert Dijkstra.Edge(Graph(conns), Last(path), e);
    Dijkstra.Prepend(Graph(conns), Last(path), e, rest);
    FreshFront(path, e, rest);
  }

  lemma FreshFront(path: seq<Cell>, e: (Cell, nat), rest: seq<(Cell, nat)>)
    requires e.0 !in path && Fresh(path + [e.0], rest)
    ensures Fresh(path, [e] + rest)
  {
    var ext := [e] + rest;
    forall k | 0 <= k < |ext| ensures ext[k].0 !in path {
      if k > 0 {
        assert ext[k] == rest[k - 1];
        assert rest[k - 1].0 !in path + [e.0];
      }
    }
    forall i, j | 0 <= i < j < |ext| ensures ext[i].0 != ext[j].0 {
      assert ext[j] == rest[j - 1];
      assert rest[j - 1].0 !in path + [e.0];
      if i > 0 {
        assert ext[i] == rest[i - 1];
      }
    }
  }

  /** The target's corridors all lead to one node (the target is a dead end). */
  predicate SingleLink(conns: Connections, target: Cell)
    requires target in conns && conns[target] != []
  {
    forall e :: e in conns[target] ==> e.0 == conns[target][0].0
  }

  /** Completeness: when the target is a dead end of a symmetric graph, no simple
      continuation reaching the target is longer than what the search returns. The
      pruning at the target's neighbour relies on this; without it the search can miss
      longer paths. */
  lemma {:induction false} SearchComplete(conns: Connections, path: seq<Cell>, target: Cell, distance: nat, ext: seq<(Cell, nat)>)
    requires path != [] && Symmetric(conns) && Last(path) in conns && target in conns && conns[target] != []
    requires SingleLink(conns, target)
    requires Trail(conns, path, ext) && Dijkstra.End(Last(path), ext) == target
    ensures distance + Dijkstra.Cost(ext) <= Search(conns, path, target, distance)
    decreases |Remaining(conns, path)|
  {
    var current := Last(path);
    if current == target {
      assert ext == [];
    } else {
      var linked := conns[target][0].0;
      if linked != current && linked in path {
        EntersViaLinked(conns, path, target, ext);
        assert false;
      } else {
        Dijkstra.Unfold(Graph(conns), current, ext);
        var e := ext[0];
        var rest := ext[1..];
        var longer := path + [e.0];
        assert e.0 !in path;
        var ns := Unvisited(conns[current], path);
        assert e in ns;
        Tail(conns, path, ext);
        Shrinks(conns, path, e.0);
        SearchComplete(conns, longer, target, distance + e.1, rest);
        BranchesAbove(conns, path, target, distance, ns, e);
      }
    }
  }

  /** Dropping the first step of a simple continuation leaves one for the path extended by
      that step's node. */
  lemma Tail(conns: Connections, path: seq<Cell>, ext: seq<(Cell, nat)>)
    requires path != [] && ext != [] && Trail(conns, path, ext)
    ensures Trail(conns, path + [ext[0].0], ext[1..])
  {
    Dijkstra.Unfold(Graph(conns), Last(path), ext);
    assert Last(path + [ext[0].0]) == ext[0].0;
    var rest := ext[1..];
    forall k | 0 <= k < |rest| ensures rest[k].0 !in path + [ext[0].0] {
      assert rest[k] == ext[k + 1];
    }
    forall i, j | 0 <= i < j < |rest| ensures rest[i].0 != rest[j].0 {
      assert rest[i] == ext[i + 1] && rest[j] == ext[j + 1];
    }
  }

  /** A continuation reaching a dead-end target enters it from the target's one neighbour. */
  lemma EntersViaLinked(conns: Connections, path: seq<Cell>, target: Cell, ext: seq<(Cell, nat)>)
    requires path != [] && Symmetric(conns) && target in conns && conns[target] != []
    requires SingleLink(conns, target) && Last(path) != target
    requires Trail(conns, path, ext) && Dijkstra.End(Last(path), ext) == target
    ensures |ext| >= 1
    ensures |ext| == 1 ==> Last(path) == conns[target][0].0
    ensures |ext| > 1 ==> ext[|ext| - 2].0 == conns[target][0].0 && ext[|ext| - 2].0 !in path
  {
    var n := |ext| - 1;
    var p := Dijkstra.Before(Last(path), ext, n);
    assert Dijkstra.Edge(Graph(conns), p, ext[n]);
    assert ext[n].0 == target;
    assert (p, ext[n].1) in conns[target];
  }

  /** r is what the search of a contracted graph promises: 0 or the length of a simple path
      from the source to the target; and when the target is a dead end, no simple path from
      the source to it is longer. */
  ghost predicate LongestTrail(conns: Connections, source: Cell, target: Cell, r: nat)
    requires target in conns && conns[target] != []
  {
    (r == 0 || Reaches(conns, [source], target, 0, r)) &&
    (SingleLink(conns, target) ==> forall ext :: Trail(conns, [source], ext) && Dijkstra.End(source, ext) == target ==> Dijkstra.Cost(ext) <= r)
  }

  lemma SearchLongest(conns: Connections, source: Cell, target: Cell)
    requires Symmetric(conns) && source in conns && target in conns && conns[target] != []
    ensures Closed(conns) && LongestTrail(conns, source, target, Search(conns, [source], target, 0))
  {
    SymmetricClosed(conns);
    SearchSound(conns, [source], target, 0);
    if SingleLink(conns, target) {
      forall ext | Trail(conns, [source], ext) && Dijkstra.End(source, ext) == target
        ensures Dijkstra.Cost(ext) <= Search(conns, [source], target, 0)
      {
        SearchComplete(conns, [source], target, 0, ext);
      }
    }
  }

  /** The contraction from the source ends within the fuel, and the target has a corridor
      (the `unwrap` and index in `dfs_impl`). */
  ghost predicate Usable(tiles: Tiles, source: Cell, target: Cell, fuel: nat) {
    var c := Contracted(tiles, source, fuel);
    c.Some? && target in c.value && c.value[target] != []
  }

  /** r is the answer of part 2 for a top-row source and a bottom-row target. */
  ghost predicate Hike(input: Input, fuel: nat, source: Cell, target: Cell, r: nat) {
    IsSource(input, source) && IsTarget(input, target) && Usable(input.tiles, source, target, fuel) &&
    LongestTrail(Contracted(input.tiles, source, fuel).value, source, target, r)
  }

  /** `part2`: contract the maze from some top-row path cell and search it for the longest
      simple path to some bottom-row path cell. Finding no such cells panics, as does a
      target without corridors; both are excluded. */
  method Part2(input: Input, ghost fuel: nat) returns (r: nat)
    requires HasEnds(input)
    requires forall source, target :: IsSource(input, source) && IsTarget(input, target) ==> Usable(input.tiles, source, target, fuel)
    ensures exists source, target :: Hike(input, fuel, source, target, r)
  {
    var source :| source in input.tiles && IsSource(input, source);
    var target :| target in input.tiles && IsTarget(input, target);
    var conns := ContractMaze(input.tiles, source, fuel);
    SymmetricClosed(conns);
    r := DepthFirst(conns, source, target);
    SearchLongest(conns, source, target);
    assert Hike(input, fuel, source, target, r);
  }
}
