/** Day 21, Step Counter: from the start, the gardener walks one plot up, down, left or
    right per step, never onto a rock; the plots where a walk of exactly the step budget
    can end are those whose distance is within the budget and has its parity. */
module Day21 {
  import opened Wrappers
  import opened Grid
  import Text
  import Dijkstra
  import Sorting

  /** The parsed map: the number of lines, the width of the first line, the start, and the
      rocks (the start among them), all 1-based. */
  datatype Garden = Garden(height: nat, width: nat, start: Pos, rocks: set<Pos>)

  /** The 1-based position of the k-th cell in a grid of the given width. */
  function At(k: nat, width: nat): Pos
    requires width > 0
  {
    (k / width + 1, k % width + 1)
  }

  predicate IsRock(c: char) {
    c == '#' || c == 'S'
  }

  /** The positions of the cells that are '#' or 'S'. */
  function Rocks(cells: string, width: nat): set<Pos>
    requires width > 0
  {
    if cells == [] then {}
    else
      var k := |cells| - 1;
      Rocks(cells[..k], width) + (if IsRock(cells[k]) then {At(k, width)} else {})
  }

  /** The position of the last 'S', if any. */
  function LastStart(cells: string, width: nat): Option<Pos>
    requires width > 0
  {
    if cells == [] then None
    else
      var k := |cells| - 1;
      if cells[k] == 'S' then Some(At(k, width)) else LastStart(cells[..k], width)
  }

  /** The rocks are exactly the positions of the '#' and 'S' cells. */
  lemma {:induction false} RocksAre(cells: string, width: nat, p: Pos)
    requires width > 0
    ensures p in Rocks(cells, width) <==> exists k :: 0 <= k < |cells| && IsRock(cells[k]) && At(k, width) == p
  {
    if cells != [] {
      var k := |cells| - 1;
      RocksAre(cells[..k], width, p);
      if p in Rocks(cells[..k], width) {
        var k' :| 0 <= k' < k && IsRock(cells[..k][k']) && At(k', width) == p;
        assert IsRock(cells[k']);
      }
      if k' :| 0 <= k' < |cells| && IsRock(cells[k']) && At(k', width) == p {
        if k' < k {
          assert IsRock(cells[..k][k']);
        }
      }
    }
  }

  /** The start is the position of an 'S' cell, and it is among the rocks. */
  lemma {:induction false} StartIsRock(cells: string, width: nat)
    requires width > 0 && LastStart(cells, width).Some?
    ensures LastStart(cells, width).value in Rocks(cells, width)
    ensures exists k :: 0 <= k < |cells| && cells[k] == 'S' && At(k, width) == LastStart(cells, width).value
  {
    var k := |cells| - 1;
    if cells[k] != 'S' {
      StartIsRock(cells[..k], width);
      var k' :| 0 <= k' < k && cells[..k][k'] == 'S' && At(k', width) == LastStart(cells, width).value;
      assert cells[k'] == 'S';
    }
  }

  /** Without an 'S' there is no start. */
  lemma {:induction false} NoStart(cells: string, width: nat)
    requires width > 0
    ensures LastStart(cells, width).None? <==> forall k :: 0 <= k < |cells| ==> cells[k] != 'S'
  {
    if cells != [] {
      var k := |cells| - 1;
      NoStart(cells[..k], width);
      assert forall k' :: 0 <= k' < k ==> cells[..k][k'] == cells[k'];
    }
  }

  /** Every position is 1-based and within the width; cells beyond height × width fall on
      rows below the grid. */
  lemma PositionsInGrid(k: nat, width: nat, height: nat)
    requires width > 0
    ensures 1 <= At(k, width).0 && 1 <= At(k, width).1 <= width
    ensures k < height * width ==> At(k, width).0 <= height
  {
    var q := k / width;
    if k < height * width && q >= height {
      MulLe(height, q, width);
    }
  }

  lemma MulLe(a: nat, b: nat, c: nat)
    requires a <= b
    ensures a * c <= b * c
  {
    assert b * c == a * c + (b - a) * c;
  }

  /** `parse`: the height, the width of the first line in UTF-8 bytes (what `str::len` counts), the rocks and the start, scanning
      the non-whitespace characters in order. The division by the width panics when the
      first line is empty but other characters follow; that input is excluded. */
  method Parse(lines: seq<string>) returns (r: Result<Garden>)
    requires |lines| > 0 && Text.ByteLen(lines[0]) == 0 ==> Text.Cells(Text.Concat(lines)) == []
    ensures |lines| == 0 ==> r == Err("Unexpected empty line")
    ensures |lines| > 0 && Text.ByteLen(lines[0]) > 0 ==>
      var cells := Text.Cells(Text.Concat(lines));
      match LastStart(cells, Text.ByteLen(lines[0]))
      case None => r == Err("Starting position not found")
      case Some(start) => r == Ok(Garden(|lines|, Text.ByteLen(lines[0]), start, Rocks(cells, Text.ByteLen(lines[0]))))
    ensures |lines| > 0 && Text.ByteLen(lines[0]) == 0 ==> r == Err("Starting position not found")
  {
    if |lines| == 0 {
      return Err("Unexpected empty line");
    }
    var height, width := |lines|, Text.ByteLen(lines[0]);
    var cells := Text.Cells(Text.Concat(lines));
    if width == 0 {
      return Err("Starting position not found");
    }
    var rocks: set<Pos> := {};
    var start: Option<Pos> := None;
    for k := 0 to |cells|
      invariant rocks == Rocks(cells[..k], width) && start == LastStart(cells[..k], width)
    {
      assert cells[..k + 1][..k] == cells[..k];
      var position := At(k, width);
      if cells[k] == 'S' {
        start := Some(position);
      }
      if cells[k] == '#' || cells[k] == 'S' {
        rocks := rocks + {position};
      }
    }
    assert cells[..|cells|] == cells;
    match start
    case None => return Err("Starting position not found");
    case Some(s) => return Ok(Garden(height, width, s, rocks));
  }

  /** A first line with a two-byte character is one cell wider than it has characters, and
      the cells after it move along accordingly. */
  lemma WidthInBytes()
    ensures Text.ByteLen("\U{E9}S") == 3
    ensures Rocks("\U{E9}S##", 3) == {(1, 2), (1, 3), (2, 1)}
    ensures LastStart("\U{E9}S##", 3) == Some((1, 2))
  {
    var cells := "\U{E9}S##";
    assert cells[..3] == "\U{E9}S#" && cells[..2] == "\U{E9}S" && cells[..1] == "\U{E9}";
    assert "\U{E9}S"[1..] == "S" && "S"[1..] == [];
    assert At(3, 3) == (2, 1) && At(2, 3) == (1, 3) && At(1, 3) == (1, 2);
    assert Rocks(cells[..1], 3) == {} by {
      assert cells[..1][..0] == [];
    }
    assert Rocks(cells[..2], 3) == {(1, 2)} by {
      assert cells[..2][..1] == cells[..1];
    }
    assert Rocks(cells[..3], 3) == {(1, 2), (1, 3)} by {
      assert cells[..3][..2] == cells[..2];
    }
    assert cells[..4] == cells;
  }

  /** The four orthogonal positions around p. */
  function Orthogonal(p: Pos): seq<Pos> {
    [(p.0 - 1, p.1), (p.0 + 1, p.1), (p.0, p.1 - 1), (p.0, p.1 + 1)]
  }

  predicate InGrid(g: Garden, p: Pos) {
    1 <= p.0 <= g.height && 1 <= p.1 <= g.width
  }

  /** The `neighbors` closure of `solve`: the orthogonal plots that are no rock and lie in
      the grid, each one step away. */
  function Neighbors(g: Garden, p: Pos): (r: seq<(Pos, nat)>)
    ensures forall step :: step in r <==> step.0 in Orthogonal(p) && step.0 !in g.rocks && InGrid(g, step.0) && step.1 == 1
  {
    Keep(g, Orthogonal(p))
  }

  function Keep(g: Garden, ps: seq<Pos>): (r: seq<(Pos, nat)>)
    ensures forall step :: step in r <==> step.0 in ps && step.0 !in g.rocks && InGrid(g, step.0) && step.1 == 1
  {
    if ps == [] then []
    else (if ps[0] !in g.rocks && InGrid(g, ps[0]) then [(ps[0], 1)] else []) + Keep(g, ps[1..])
  }

  function Next(g: Garden): Pos -> Option<seq<(Pos, nat)>> {
    p => Some(Neighbors(g, p))
  }

  /** The grid plus the start holds every state the search can record. */
  function Bound(g: Garden): set<Pos> {
    Box(1, g.height, 1, g.width) + {g.start}
  }

  lemma BoundClosed(g: Garden)
    ensures Dijkstra.Closed(Next(g), Bound(g))
  {
    forall x, step | x in Bound(g) && Dijkstra.Edge(Next(g), x, step) ensures step.0 in Bound(g) {
      assert step in Neighbors(g, x);
    }
  }

  /** The budget counts a distance when the distance is within it and has its parity. */
  predicate Within(d: nat, steps: nat) {
    d <= steps && d % 2 == steps % 2
  }

  /** The plots whose distance from the start is counted for the budget. */
  ghost function Plots(g: Garden, steps: nat): set<Pos> {
    set p | p in Bound(g) && Counts(g, steps, p)
  }

  ghost predicate Counts(g: Garden, steps: nat, p: Pos) {
    exists d :: Within(d, steps) && Dijkstra.Shortest(Next(g), g.start, p, d)
  }

  /** The derived `Ord` of a (row, column) state: lexicographic. */
  predicate PosLe(a: Pos, b: Pos) {
    a.0 < b.0 || (a.0 == b.0 && a.1 <= b.1)
  }

  /** The derived order is total and transitive, and two states that each come no later
      than the other are equal. */
  lemma PosOrder()
    ensures Sorting.Total(PosLe) && Sorting.Transitive(PosLe)
    ensures forall a, b :: PosLe(a, b) && PosLe(b, a) ==> a == b
  {
  }

  /** `solve`: the distances from the start, filtered and counted. */
  method Solve(g: Garden, steps: nat) returns (count: nat)
    ensures count == |Plots(g, steps)|
  {
    BoundClosed(g);
    PosOrder();
    var r := Dijkstra.Run(g.start, Next(g), _ => false, PosLe, Bound(g));
    if r.Arrived? {
      assert false;
    }
    var dist := r.dist;
    var counted := set p | p in dist && Within(dist[p], steps);
    Counted(g, steps, dist, counted);
    count := |counted|;
  }

  lemma Counted(g: Garden, steps: nat, dist: map<Pos, nat>, counted: set<Pos>)
    requires dist.Keys <= Bound(g)
    requires forall s :: s in dist <==> Dijkstra.Reached(Next(g), g.start, s)
    requires forall s :: s in dist ==> Dijkstra.Shortest(Next(g), g.start, s, dist[s])
    requires counted == set p | p in dist && Within(dist[p], steps)
    ensures counted == Plots(g, steps)
  {
    forall p | p in Plots(g, steps) ensures p in counted {
      var d :| Within(d, steps) && Dijkstra.Shortest(Next(g), g.start, p, d);
      assert p in dist;
      ShortestUnique(g, p, d, dist[p]);
    }
  }

  /** A plot has one distance. */
  lemma ShortestUnique(g: Garden, p: Pos, d: nat, d': nat)
    requires Dijkstra.Shortest(Next(g), g.start, p, d) && Dijkstra.Shortest(Next(g), g.start, p, d')
    ensures d == d'
  {
    var route :| Dijkstra.Route(Next(g), g.start, route) && Dijkstra.End(g.start, route) == p && Dijkstra.Cost(route) == d;
    var route' :| Dijkstra.Route(Next(g), g.start, route') && Dijkstra.End(g.start, route') == p && Dijkstra.Cost(route') == d';
  }

  /** Every step costs 1, so a route costs its length. */
  lemma {:induction false} CostIsLength(g: Garden, route: seq<(Pos, nat)>)
    requires Dijkstra.Route(Next(g), g.start, route)
    ensures Dijkstra.Cost(route) == |route|
  {
    if route != [] {
      var front := route[..|route| - 1];
      forall k | 0 <= k < |front| ensures Dijkstra.Edge(Next(g), Dijkstra.Before(g.start, front, k), front[k]) {
        assert Dijkstra.Before(g.start, front, k) == Dijkstra.Before(g.start, route, k);
      }
      CostIsLength(g, front);
      assert Dijkstra.Edge(Next(g), Dijkstra.Before(g.start, route, |front|), route[|front|]);
    }
  }

  /** The start is at distance 0. */
  lemma StartShortest(g: Garden)
    ensures Dijkstra.Shortest(Next(g), g.start, g.start, 0)
  {
    assert Dijkstra.Route(Next(g), g.start, []) && Dijkstra.End(g.start, []) == g.start;
  }

  /** With no steps only the start is counted. */
  lemma ZeroSteps(g: Garden)
    ensures Plots(g, 0) == {g.start}
  {
    StartShortest(g);
    forall p | p in Plots(g, 0) ensures p == g.start {
      var d :| Within(d, 0) && Dijkstra.Shortest(Next(g), g.start, p, d);
      var route :| Dijkstra.Route(Next(g), g.start, route) && Dijkstra.End(g.start, route) == p && Dijkstra.Cost(route) == d;
      CostIsLength(g, route);
    }
  }

  /** The start is counted for every even budget. */
  lemma StartCounted(g: Garden, steps: nat)
    requires steps % 2 == 0
    ensures g.start in Plots(g, steps)
  {
    StartShortest(g);
    assert Within(0, steps);
  }

  /** A plot counted for a budget is counted for the budget two steps larger: the walk can
      step off and back. */
  lemma TwoMore(g: Garden, steps: nat)
    ensures Plots(g, steps) <= Plots(g, steps + 2)
  {
    forall p | p in Plots(g, steps) ensures p in Plots(g, steps + 2) {
      var d :| Within(d, steps) && Dijkstra.Shortest(Next(g), g.start, p, d);
      assert Within(d, steps + 2);
      assert Counts(g, steps + 2, p);
    }
  }

  /** `part1`: the budget of 64 steps. */
  method Part1(g: Garden) returns (count: nat)
    ensures count == |Plots(g, 64)|
  {
    count := Solve(g, 64);
  }
}
