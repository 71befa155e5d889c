/** Day 17, Clumsy Crucible: a crucible moves from the top-left block to the bottom-right
    one, never reversing and never more than three blocks in a row in one direction; each
    block entered costs its heat loss, and the least total heat loss is wanted. */
module Day17 {
  import opened Wrappers
  import opened Grid
  import Text
  import Dijkstra
  import Sorting

  /** Heat loss by 1-based (row, column); '.' cells have no entry. */
  type HeatMap = map<Pos, nat>

  datatype City = City(height: nat, width: nat, grid: HeatMap)

  /** `parse`: the height, the width of the first line, and each block's digit. The first
      character that is neither '.' nor a digit, in reading order, is reported. */
  function Parse(lines: seq<string>): (r: Result<City>)
    ensures r.Ok? <==> |lines| > 0 && forall j, i :: 0 <= j < |lines| && 0 <= i < |lines[j]| ==> lines[j][i] == '.' || Text.IsDigit(lines[j][i])
    ensures r.Ok? ==> r.value.height == |lines| && r.value.width == |lines[0]|
    ensures r.Ok? ==> forall p :: p in r.value.grid <==> 1 <= p.0 <= |lines| && 1 <= p.1 <= |lines[p.0 - 1]| && lines[p.0 - 1][p.1 - 1] != '.'
    ensures r.Ok? ==> forall p :: p in r.value.grid ==> Text.IsDigit(lines[p.0 - 1][p.1 - 1]) && r.value.grid[p] == Text.DigitValue(lines[p.0 - 1][p.1 - 1])
    ensures |lines| == 0 ==> r == Err("Unexpected empty line")
  {
    if |lines| == 0 then Err("Unexpected empty line")
    else
      var grid :- ParseRows(lines, 0);
      Ok(City(|lines|, |lines[0]|, grid))
  }

  function ParseRows(lines: seq<string>, j: nat): (r: Result<HeatMap>)
    requires j <= |lines|
    ensures r.Ok? <==> forall k, i :: j <= k < |lines| && 0 <= i < |lines[k]| ==> lines[k][i] == '.' || Text.IsDigit(lines[k][i])
    ensures r.Ok? ==> forall p :: p in r.value <==> j + 1 <= p.0 <= |lines| && 1 <= p.1 <= |lines[p.0 - 1]| && lines[p.0 - 1][p.1 - 1] != '.'
    ensures r.Ok? ==> forall p :: p in r.value ==> Text.IsDigit(lines[p.0 - 1][p.1 - 1]) && r.value[p] == Text.DigitValue(lines[p.0 - 1][p.1 - 1])
    decreases |lines| - j
  {
    if j == |lines| then Ok(map[])
    else
      var row :- ParseRow(lines[j], j + 1, 0);
      var rest :- ParseRows(lines, j + 1);
      Ok(row + rest)
  }

  function ParseRow(line: string, row: nat, i: nat): (r: Result<HeatMap>)
    requires i <= |line|
    ensures r.Ok? <==> forall k :: i <= k < |line| ==> line[k] == '.' || Text.IsDigit(line[k])
    ensures r.Ok? ==> forall p :: p in r.value <==> p.0 == row && i + 1 <= p.1 <= |line| && line[p.1 - 1] != '.'
    ensures r.Ok? ==> forall p :: p in r.value ==> Text.IsDigit(line[p.1 - 1]) && r.value[p] == Text.DigitValue(line[p.1 - 1])
    ensures r.Err? ==> exists k :: i <= k < |line| && r.error == "Invalid heat loss number: " + [line[k]]
    decreases |line| - i
  {
    if i == |line| then Ok(map[])
    else if line[i] == '.' then ParseRow(line, row, i + 1)
    else if !Text.IsDigit(line[i]) then Err("Invalid heat loss number: " + [line[i]])
    else
      var rest :- ParseRow(line, row, i + 1);
      Ok(rest[(row, i + 1) := Text.DigitValue(line[i])])
  }

  datatype Direction = Up | Down | Left | Right

  /** `Direction::iter()`: the directions in declaration order. */
  const Directions: seq<Direction> := [Up, Down, Left, Right]

  /** `Direction::step`: one block along one axis. */
  function Step(d: Direction, p: Pos): (r: Pos)
    ensures (r.0 == p.0 && (r.1 - p.1 == 1 || p.1 - r.1 == 1)) || (r.1 == p.1 && (r.0 - p.0 == 1 || p.0 - r.0 == 1))
  {
    match d
    case Up => (p.0 - 1, p.1)
    case Down => (p.0 + 1, p.1)
    case Left => (p.0, p.1 - 1)
    case Right => (p.0, p.1 + 1)
  }

  function Reverse(d: Direction): Direction {
    match d
    case Up => Down
    case Down => Up
    case Left => Right
    case Right => Left
  }

  /** Reversing is an involution without fixed points, and stepping forth and back returns
      to the start. */
  lemma ReverseInvolution(d: Direction, p: Pos)
    ensures Reverse(Reverse(d)) == d && Reverse(d) != d
    ensures Step(Reverse(d), Step(d, p)) == p
  {
  }

  /** A search state: position, direction of the last move, and how many moves in a row
      went that way. */
  type State = (Pos, Direction, nat)

  predicate InGrid(c: City, p: Pos) {
    1 <= p.0 <= c.height && 1 <= p.1 <= c.width
  }

  /** The `neighbors` closure of `distance`. */
  function Neighbors(c: City, s: State): (r: seq<State>)
    ensures forall n :: n in r ==>
      n.1 != Reverse(s.1) && (s.2 < 3 || n.1 != s.1) && InGrid(c, n.0) && n.0 == Step(n.1, s.0) &&
      n.2 == (if n.1 == s.1 then s.2 + 1 else 1) && 1 <= n.2 <= 3
    ensures forall d :: d != Reverse(s.1) && (s.2 < 3 || d != s.1) && InGrid(c, Step(d, s.0)) ==>
      (Step(d, s.0), d, if d == s.1 then s.2 + 1 else 1) in r
  {
    Turns(c, s, Directions)
  }

  function Turns(c: City, s: State, ds: seq<Direction>): (r: seq<State>)
    ensures forall n :: n in r ==>
      n.1 in ds && n.1 != Reverse(s.1) && (s.2 < 3 || n.1 != s.1) && InGrid(c, n.0) && n.0 == Step(n.1, s.0) &&
      n.2 == (if n.1 == s.1 then s.2 + 1 else 1)
    ensures forall d :: d in ds && d != Reverse(s.1) && (s.2 < 3 || d != s.1) && InGrid(c, Step(d, s.0)) ==>
      (Step(d, s.0), d, if d == s.1 then s.2 + 1 else 1) in r
  {
    if ds == [] then []
    else
      var d := ds[0];
      var keep := d != Reverse(s.1) && (s.2 < 3 || d != s.1) && InGrid(c, Step(d, s.0));
      (if keep then [(Step(d, s.0), d, if d == s.1 then s.2 + 1 else 1)] else []) + Turns(c, s, ds[1..])
  }

  /** The neighbours weighted by the heat loss of the block entered; None as soon as one of
      them has no heat loss (the `?` on `grid.get`). */
  function Weighed(c: City, ns: seq<State>): (r: Option<seq<(State, nat)>>)
    ensures r.Some? <==> forall n :: n in ns ==> n.0 in c.grid
    ensures r.Some? ==> forall step :: step in r.value <==> step.0 in ns && step.1 == c.grid[step.0.0]
  {
    if ns == [] then Some([])
    else if ns[0].0 !in c.grid then None
    else
      match Weighed(c, ns[1..])
      case None => None
      case Some(rest) => Some([(ns[0], c.grid[ns[0].0])] + rest)
  }

  function Next(c: City): State -> Option<seq<(State, nat)>> {
    s => Weighed(c, Neighbors(c, s))
  }

  /** The derived `Ord` of `Direction`: declaration order. */
  function Rank(d: Direction): (r: nat)
    ensures r < 4
  {
    match d
    case Up => 0
    case Down => 1
    case Left => 2
    case Right => 3
  }

  /** The derived `Ord` of a state: lexicographic on row, column, direction and run. */
  predicate StateLe(a: State, b: State) {
    a.0.0 < b.0.0 || (a.0.0 == b.0.0 &&
      (a.0.1 < b.0.1 || (a.0.1 == b.0.1 &&
        (Rank(a.1) < Rank(b.1) || (Rank(a.1) == Rank(b.1) && a.2 <= b.2)))))
  }

  /** The derived order is total and transitive, and two states that each come no later
      than the other are equal. */
  lemma StateOrder()
    ensures Sorting.Total(StateLe) && Sorting.Transitive(StateLe)
    ensures forall a, b :: StateLe(a, b) && StateLe(b, a) ==> a == b
  {
    forall d: Direction, e: Direction | Rank(d) == Rank(e)
      ensures d == e
    {
      match d
      case Up =>
      case Down =>
      case Left =>
      case Right =>
    }
  }

  function IsAt(target: Pos): State -> bool {
    (s: State) => s.0 == target
  }

  /** The states the search can record: in the grid with a run of at most 3, plus the
      initial state. */
  function Bound(c: City, initial: State): set<State> {
    (set p, d, k | p in Box(1, c.height, 1, c.width) && d in Directions && 0 <= k <= 3 :: (p, d, k)) + {initial}
  }

  lemma BoundClosed(c: City, initial: State)
    ensures Dijkstra.Closed(Next(c), Bound(c, initial))
  {
    forall x, step | x in Bound(c, initial) && Dijkstra.Edge(Next(c), x, step) ensures step.0 in Bound(c, initial) {
      assert step.0 in Neighbors(c, x);
      InBound(c, initial, step.0);
    }
  }

  lemma InBound(c: City, initial: State, n: State)
    requires InGrid(c, n.0) && 1 <= n.2 <= 3
    ensures n in Bound(c, initial)
  {
    assert n.0 in Box(1, c.height, 1, c.width);
    assert n.1 in Directions by {
      match n.1
      case Up =>
      case Down =>
      case Left =>
      case Right =>
    }
  }

  /** Some state the search can reach has a neighbour block without a heat loss. */
  ghost predicate Unweighable(c: City, initial: State) {
    exists s :: Dijkstra.Reached(Next(c), initial, s) && Next(c)(s).None?
  }

  /** No route from the initial state ends on the target. */
  ghost predicate Unreachable(c: City, initial: State, target: Pos) {
    forall route :: Dijkstra.Route(Next(c), initial, route) ==> Dijkstra.End(initial, route).0 != target
  }

  /** `distance`: the least heat loss of a route from the source, first heading right with
      no run, to any state on the target; None when no route reaches the target or a
      reachable state's neighbour block has no heat loss. */
  method Distance(source: Pos, target: Pos, c: City) returns (r: Option<nat>)
    ensures r.Some? ==> Dijkstra.Best(Next(c), (source, Right, 0), IsAt(target), r.value)
    ensures r.None? ==> Unweighable(c, (source, Right, 0)) || Unreachable(c, (source, Right, 0), target)
  {
    var initial: State := (source, Right, 0);
    BoundClosed(c, initial);
    StateOrder();
    var outcome := Dijkstra.Run(initial, Next(c), IsAt(target), StateLe, Bound(c, initial));
    match outcome
    case Arrived(cost) => r := Some(cost);
    case Stuck(_) => r := None;
    case Exhausted(_) => r := None;
  }

  /** `part1`: from the top-left block to the bottom-right one. */
  method Part1(c: City) returns (r: Option<nat>)
    ensures r.Some? ==> Dijkstra.Best(Next(c), ((1, 1), Right, 0), IsAt((c.height, c.width)), r.value)
    ensures r.None? ==> Unweighable(c, ((1, 1), Right, 0)) || Unreachable(c, ((1, 1), Right, 0), (c.height, c.width))
  {
    r := Distance((1, 1), (c.height, c.width), c);
  }
}
