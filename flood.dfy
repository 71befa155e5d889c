/** The eight-neighbour flood fill used to find the outside of a closed loop drawn on a
    grid: a breadth-first search from the top-left corner of a rectangle that never enters
    a cell of the loop. */
module Flood {
  import opened Grid
  import Search

  /** A rectangle: top, bottom, left, right, all included. */
  type Bounds = (int, int, int, int)

  predicate InBounds(b: Bounds, p: Pos) {
    b.0 <= p.0 <= b.1 && b.2 <= p.1 <= b.3
  }

  /** The neighbours the fill may enter: the eight around, off the path, inside the
      bounds. */
  function Open(path: set<Pos>, b: Bounds, candidates: seq<Pos>): (r: seq<Pos>)
    ensures forall q :: q in r <==> q in candidates && q !in path && InBounds(b, q)
  {
    if candidates == [] then []
    else
      var q := candidates[0];
      (if q !in path && InBounds(b, q) then [q] else []) + Open(path, b, candidates[1..])
  }

  function Next(path: set<Pos>, b: Bounds): Pos -> seq<Pos> {
    p => Open(path, b, Around(p))
  }

  /** The cells reached from the corner without crossing the path. */
  ghost function Outside(path: set<Pos>, b: Bounds): set<Pos> {
    set p | p in Box(b.0, b.1, b.2, b.3) && Search.Reachable(Next(path, b), (b.0, b.2), p)
  }

  /** The breadth-first search from the corner (top, left): every cell reachable from it
      through the eight neighbours without entering the path or leaving the bounds.
      `order` is the order cells are queued in: each cell is queued once. */
  method Fill(path: set<Pos>, b: Bounds) returns (outside: set<Pos>, ghost order: seq<Pos>)
    requires b.0 <= b.1 && b.2 <= b.3
    ensures Search.Distinct(order) && forall p :: p in outside <==> p in order
    ensures outside == Outside(path, b)
    ensures (b.0, b.2) in outside
    ensures forall p :: p in outside ==> InBounds(b, p) && (p == (b.0, b.2) || p !in path)
  {
    FillBound(path, b);
    outside, order := Search.Explore((b.0, b.2), Next(path, b), Box(b.0, b.1, b.2, b.3));
    FillResult(path, b, outside);
  }

  lemma FillBound(path: set<Pos>, b: Bounds)
    requires b.0 <= b.1 && b.2 <= b.3
    ensures (b.0, b.2) in Box(b.0, b.1, b.2, b.3)
    ensures Search.Closed(Next(path, b), Box(b.0, b.1, b.2, b.3))
  {
  }

  lemma FillResult(path: set<Pos>, b: Bounds, outside: set<Pos>)
    requires b.0 <= b.1 && b.2 <= b.3
    requires outside <= Box(b.0, b.1, b.2, b.3)
    requires forall p :: p in outside <==> Search.Reachable(Next(path, b), (b.0, b.2), p)
    ensures outside == Outside(path, b)
    ensures forall p :: p in outside ==> InBounds(b, p) && (p == (b.0, b.2) || p !in path)
  {
    OffTrench(path, b, outside);
  }

  lemma OffTrench(path: set<Pos>, b: Bounds, outside: set<Pos>)
    requires forall p :: p in outside ==> Search.Reachable(Next(path, b), (b.0, b.2), p)
    requires b.0 <= b.1 && b.2 <= b.3
    ensures forall p :: p in outside ==> InBounds(b, p) && (p == (b.0, b.2) || p !in path)
  {
    var free := (Box(b.0, b.1, b.2, b.3) - path) + {(b.0, b.2)};
    FreeClosed(path, b, free);
    forall p | p in outside ensures InBounds(b, p) && (p == (b.0, b.2) || p !in path) {
      Search.ReachableInClosed(Next(path, b), (b.0, b.2), free, p);
      assert p in Box(b.0, b.1, b.2, b.3);
    }
  }

  lemma FreeClosed(path: set<Pos>, b: Bounds, free: set<Pos>)
    requires free == (Box(b.0, b.1, b.2, b.3) - path) + {(b.0, b.2)}
    ensures (b.0, b.2) in free && Search.Closed(Next(path, b), free)
  {
  }

}
