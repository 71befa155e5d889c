/** Day 18, Lavaduct Lagoon: a dig plan moves a digger around a loop, one unit cell at a
    time; the lagoon is the trench plus everything it encloses. */
module Day18 {
  import opened Wrappers
  import opened Grid
  import Search
  import opened Flood

  datatype Direction = Up | Down | Left | Right

  /** `Direction::from_str`. */
  function ParseDirection(s: string): (r: Result<Direction>)
    ensures r.Ok? <==> s in ["U", "D", "L", "R"]
    ensures r.Ok? ==> [ShowDirection(r.value)] == s
    ensures r.Err? ==> r.error == "Invalid direction: " + s
  {
    if s == "U" then Ok(Up)
    else if s == "D" then Ok(Down)
    else if s == "L" then Ok(Left)
    else if s == "R" then Ok(Right)
    else Err("Invalid direction: " + s)
  }

  function ShowDirection(d: Direction): char {
    match d
    case Up => 'U'
    case Down => 'D'
    case Left => 'L'
    case Right => 'R'
  }

  /** `Direction::step`: one unit along one axis. */
  function Step(d: Direction, p: Pos): (r: Pos)
    ensures (r.0 == p.0 && (r.1 - p.1 == 1 || p.1 - r.1 == 1)) || (r.1 == p.1 && (r.0 - p.0 == 1 || p.0 - r.0 == 1))
  {
    Move(d, p, 1)
  }

  /** k steps in direction d. */
  function Move(d: Direction, p: Pos, k: int): Pos {
    match d
    case Up => (p.0 - k, p.1)
    case Down => (p.0 + k, p.1)
    case Left => (p.0, p.1 - k)
    case Right => (p.0, p.1 + k)
  }

  /** The cells passed over by k steps from p, p itself excluded. */
  function Line(d: Direction, p: Pos, k: nat): set<Pos> {
    if k == 0 then {} else Line(d, p, k - 1) + {Move(d, p, k)}
  }

  function Clamp(amount: int): nat {
    if amount < 0 then 0 else amount
  }

  /** The trench dug by a plan, and where the digger ends: starting from the dug origin,
      each instruction walks its amount (none for a negative amount), digging each cell. */
  function Dig(plan: seq<(Direction, int)>): (r: (set<Pos>, Pos))
    ensures (0, 0) in r.0 && r.1 in r.0
  {
    if plan == [] then ({(0, 0)}, (0, 0))
    else
      var (d, amount) := plan[|plan| - 1];
      var (cells, at) := Dig(plan[..|plan| - 1]);
      var n := Clamp(amount);
      assert n > 0 ==> Move(d, at, n) in Line(d, at, n);
      assert n == 0 ==> Move(d, at, n) == at;
      (cells + Line(d, at, n), Move(d, at, n))
  }

  /** The digging loops of `part1`. */
  method DigTrench(plan: seq<(Direction, int)>) returns (grid: set<Pos>, position: Pos)
    ensures (grid, position) == Dig(plan)
  {
    grid, position := {(0, 0)}, (0, 0);
    for k := 0 to |plan|
      invariant (grid, position) == Dig(plan[..k])
    {
      var (d, amount) := plan[k];
      assert plan[..k + 1][..k] == plan[..k];
      ghost var start, before := position, grid;
      for t := 0 to Clamp(amount)
        invariant position == Move(d, start, t)
        invariant grid == before + Line(d, start, t)
      {
        position := Step(d, position);
        grid := grid + {position};
      }
    }
    assert plan[..|plan|] == plan;
  }

  /** The fold of `part1` over the trench: the smallest and largest row and column, one
      cell further out, starting from (0, 0, 0, 0). */
  method FindBounds(grid: set<Pos>) returns (b: Bounds)
    ensures Tight(b, grid)
  {
    b := (0, 0, 0, 0);
    var rest := grid;
    while rest != {}
      invariant rest <= grid && Encloses(b, grid - rest)
      invariant b.0 <= 0 <= b.1 && b.2 <= 0 <= b.3
      invariant (b.0 == 0 || exists p :: p in grid && b.0 == p.0 - 1) && (b.1 == 0 || exists p :: p in grid && b.1 == p.0 + 1)
      invariant (b.2 == 0 || exists p :: p in grid && b.2 == p.1 - 1) && (b.3 == 0 || exists p :: p in grid && b.3 == p.1 + 1)
    {
      var p :| p in rest;
      b := (Min(b.0, p.0 - 1), Max(b.1, p.0 + 1), Min(b.2, p.1 - 1), Max(b.3, p.1 + 1));
      rest := rest - {p};
    }
  }

  /** b is the fold's result: it encloses the cells with a margin of one and the origin,
      and each side is 0 or the margin of some cell. */
  predicate Tight(b: Bounds, grid: set<Pos>) {
    Encloses(b, grid) && b.0 <= 0 <= b.1 && b.2 <= 0 <= b.3 &&
    (b.0 == 0 || exists p :: p in grid && b.0 == p.0 - 1) && (b.1 == 0 || exists p :: p in grid && b.1 == p.0 + 1) &&
    (b.2 == 0 || exists p :: p in grid && b.2 == p.1 - 1) && (b.3 == 0 || exists p :: p in grid && b.3 == p.1 + 1)
  }

  /** The bounds of a set of cells are determined by it, whatever order the fold visits
      the cells in. */
  lemma TightUnique(b: Bounds, b': Bounds, grid: set<Pos>)
    requires Tight(b, grid) && Tight(b', grid)
    ensures b == b'
  {
  }

  function Min(a: int, b: int): int {
    if a <= b then a else b
  }

  function Max(a: int, b: int): int {
    if a >= b then a else b
  }

  /** Every cell lies inside the bounds with a margin of one. */
  predicate Encloses(b: Bounds, grid: set<Pos>) {
    forall p :: p in grid ==> b.0 <= p.0 - 1 && p.0 + 1 <= b.1 && b.2 <= p.1 - 1 && p.1 + 1 <= b.3
  }

  /** The corner the fill starts from is never on the trench. */
  lemma CornerOffTrench(path: set<Pos>, b: Bounds)
    requires Encloses(b, path)
    ensures (b.0, b.2) !in path
  {
  }

  /** The lagoon: the trench plus every in-bounds cell the fill did not reach. */
  ghost function Lagoon(plan: seq<(Direction, int)>, b: Bounds): set<Pos> {
    Dig(plan).0 + (Box(b.0, b.1, b.2, b.3) - Outside(Dig(plan).0, b))
  }

  /** `part1`: dig, bound, fill the outside, then add every in-bounds cell that is not
      outside; the answer is the number of cells. */
  method Part1(plan: seq<(Direction, int)>) returns (count: nat)
    ensures exists b: Bounds :: Tight(b, Dig(plan).0) && count == |Lagoon(plan, b)|
    ensures count >= |Dig(plan).0|
  {
    var grid, position := DigTrench(plan);
    var b := FindBounds(grid);
    ghost var order;
    var outside;
    outside, order := Fill(grid, b);
    ghost var trench := grid;
    grid := AddInside(grid, outside, b);
    ScanCoversBox(grid, trench, outside, b);
    count := |grid|;
    SubsetSize(trench, grid);
  }

  /** The scan of `part1` over the bounds, adding every cell that is not outside. */
  method AddInside(grid: set<Pos>, outside: set<Pos>, b: Bounds) returns (grid': set<Pos>)
    ensures forall p :: p in grid' <==> p in grid || (InBounds(b, p) && p !in outside)
  {
    grid' := grid;
    var j := b.0;
    while j <= b.1
      invariant forall p :: p in grid' <==> p in grid || (Scanned(b, j, b.2, p) && p !in outside)
    {
      var i := b.2;
      while i <= b.3
        invariant forall p :: p in grid' <==> p in grid || (Scanned(b, j, i, p) && p !in outside)
      {
        if (j, i) !in outside {
          grid' := grid' + {(j, i)};
        }
        i := i + 1;
      }
      j := j + 1;
    }
  }

  lemma ScanCoversBox(grid: set<Pos>, trench: set<Pos>, outside: set<Pos>, b: Bounds)
    requires forall p :: p in grid <==> p in trench || (InBounds(b, p) && p !in outside)
    ensures grid == trench + (Box(b.0, b.1, b.2, b.3) - outside)
  {
  }

  /** p is an in-bounds cell that the scan of `part1` has passed before reaching (j, i):
      an earlier row, or an earlier column of row j. */
  predicate Scanned(b: Bounds, j: int, i: int, p: Pos) {
    InBounds(b, p) && (p.0 < j || (p.0 == j && p.1 < i))
  }
}
