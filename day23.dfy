/** Day 23, A Long Walk: the hike goes from the path cell on the top row to the path cell on
    the bottom row, never stepping onto forest and never visiting a cell twice. Part 1 walks
    down slopes only in their direction; part 2 treats slopes as paths. */
module Day23 {
  import opened Wrappers
  import Text
  import Dijkstra
  import Longest

  datatype Direction = North | South | West | East

  /** `Direction::iter()`: the directions in declaration order. */
  const Directions: seq<Direction> := [North, South, West, East]

  /** A 0-based (row, column) position. */
  type Cell = (nat, nat)

  predicate Adjacent(p: Cell, q: Cell) {
    (p.0 == q.0 && (p.1 + 1 == q.1 || q.1 + 1 == p.1)) || (p.1 == q.1 && (p.0 + 1 == q.0 || q.0 + 1 == p.0))
  }

  /** `Direction::step`: one cell along one axis; None when a coordinate would drop below 0
      (`checked_sub`). */
  function Step(d: Direction, p: Cell): (r: Option<Cell>)
    ensures r.None? <==> (d == North && p.0 == 0) || (d == West && p.1 == 0)
    ensures r.Some? ==> Adjacent(p, r.value)
  {
    match d
    case North => if p.0 == 0 then None else Some((p.0 - 1, p.1))
    case South => Some((p.0 + 1, p.1))
    case West => if p.1 == 0 then None else Some((p.0, p.1 - 1))
    case East => Some((p.0, p.1 + 1))
  }

  function Reverse(d: Direction): Direction {
    match d
    case North => South
    case South => North
    case West => East
    case East => West
  }

  /** Reversing is an involution without fixed points, and a step can always be taken back. */
  lemma StepBack(d: Direction, p: Cell)
    ensures Reverse(Reverse(d)) == d && Reverse(d) != d
    ensures Step(d, p).Some? ==> Step(Reverse(d), Step(d, p).value) == Some(p)
  {
  }

  /** `Direction::try_from(char)`. */
  function ParseDirection(c: char): (r: Result<Direction>)
    ensures r.Ok? <==> c in "^v<>"
    ensures r.Err? ==> r.error == "Invalid direction: " + [c]
  {
    match c
    case '^' => Ok(North)
    case 'v' => Ok(South)
    case '<' => Ok(West)
    case '>' => Ok(East)
    case _ => Err("Invalid direction: " + [c])
  }

  function ShowDirection(d: Direction): (c: char)
    ensures ParseDirection(c) == Ok(d)
  {
    match d
    case North => '^'
    case South => 'v'
    case West => '<'
    case East => '>'
  }

  datatype Tile = Path | Forest | Slope(dir: Direction)

  /** `Tile::try_from(char)`: a character that is neither '.', '#' nor a slope is reported
      with the tile context. */
  function ParseTile(c: char): (r: Result<Tile>)
    ensures r.Ok? <==> c in ".#^v<>"
    ensures r.Err? ==> r.error == "Invalid tile: " + [c]
  {
    if c == '.' then Ok(Path)
    else if c == '#' then Ok(Forest)
    else
      match ParseDirection(c)
      case Ok(d) => Ok(Slope(d))
      case Err(_) => Err("Invalid tile: " + [c])
  }

  function ShowTile(t: Tile): (c: char)
    ensures ParseTile(c) == Ok(t)
  {
    match t
    case Path => '.'
    case Forest => '#'
    case Slope(d) => ShowDirection(d)
  }

  /** Parsing and showing are inverse: every valid character is shown back as itself. */
  lemma TileRoundTrip(c: char)
    requires ParseTile(c).Ok?
    ensures ShowTile(ParseTile(c).value) == c
  {
    if c != '.' && c != '#' {
      assert ShowDirection(ParseDirection(c).value) == c;
    }
  }

  type Tiles = map<Cell, Tile>

  /** The parsed map: the number of lines, the width of the first line, and the tiles. */
  datatype Input = Input(height: nat, width: nat, tiles: Tiles)

  /** The 0-based position of the k-th cell in a grid of the given width. */
  function At(k: nat, width: nat): Cell
    requires width > 0
  {
    (k / width, k % width)
  }

  /** Distinct cells have distinct positions. */
  lemma AtInjective(i: nat, j: nat, width: nat)
    requires width > 0 && i != j
    ensures At(i, width) != At(j, width)
  {
    assert i == (i / width) * width + i % width;
    assert j == (j / width) * width + j % width;
  }

  /** The tiles of the cells from the k-th on; the first invalid character is reported. */
  function ParseTiles(cells: string, width: nat, k: nat): (r: Result<Tiles>)
    requires width > 0 && k <= |cells|
    ensures r.Ok? <==> forall j :: k <= j < |cells| ==> ParseTile(cells[j]).Ok?
    ensures r.Err? ==> exists j :: k <= j < |cells| && ParseTile(cells[j]) == Err(r.error) && Valid(cells, k, j)
    decreases |cells| - k
  {
    if k == |cells| then Ok(map[])
    else
      var t :- ParseTile(cells[k]);
      var rest :- ParseTiles(cells, width, k + 1);
      Ok(map[At(k, width) := t] + rest)
  }

  /** The map holds exactly the cells the characters land on, each with its character's
      tile. */
  lemma {:induction false} ParseTilesMap(cells: string, width: nat, k: nat)
    requires width > 0 && k <= |cells|
    requires ParseTiles(cells, width, k).Ok?
    ensures var tiles := ParseTiles(cells, width, k).value;
      (forall p :: p in tiles <==> exists j :: k <= j < |cells| && At(j, width) == p) &&
      forall j :: k <= j < |cells| ==> At(j, width) in tiles && ParseTile(cells[j]) == Ok(tiles[At(j, width)])
    decreases |cells| - k
  {
    if k < |cells| {
      var t := ParseTile(cells[k]).value;
      ParseTilesMap(cells, width, k + 1);
      var rest := ParseTiles(cells, width, k + 1).value;
      var a := At(k, width);
      var tiles := map[a := t] + rest;
      assert ParseTiles(cells, width, k).value == tiles;
      forall p
        ensures p in tiles <==> exists j :: k <= j < |cells| && At(j, width) == p
      {
        if p != a && exists j :: k <= j < |cells| && At(j, width) == p {
          var j :| k <= j < |cells| && At(j, width) == p;
          assert j != k;
        }
      }
      NotLater(cells, width, k, rest);
      assert tiles[a] == t;
      forall j | k < j < |cells|
        ensures At(j, width) in tiles && ParseTile(cells[j]) == Ok(tiles[At(j, width)])
      {
        var b := At(j, width);
        AtInjective(k, j, width);
        assert b in rest && tiles[b] == rest[b];
      }
    }
  }

  /** The cells from the k-th up to the j-th, excluded, are valid tiles. */
  predicate Valid(cells: string, k: nat, j: nat)
    requires k <= j <= |cells|
  {
    forall i :: k <= i < j ==> ParseTile(cells[i]).Ok?
  }

  lemma NotLater(cells: string, width: nat, k: nat, rest: Tiles)
    requires width > 0 && k < |cells|
    requires forall p :: p in rest ==> exists j :: k + 1 <= j < |cells| && At(j, width) == p
    ensures At(k, width) !in rest
  {
    if At(k, width) in rest {
      var j :| k + 1 <= j < |cells| && At(j, width) == At(k, width);
      AtInjective(k, j, width);
    }
  }

  /** The characters of the lines that are not ASCII whitespace, in order. */
  function Chars(lines: seq<string>): string {
    Text.Cells(Text.Concat(lines))
  }

  /** `parse`: the height, the width of the first line, and the tile of each character that
      is not ASCII whitespace, placed row by row at that width. The division by the width
      panics when the first line is empty but other characters follow; that input is
      excluded. */
  function Parse(lines: seq<string>): (r: Result<Input>)
    requires |lines| > 0 && |lines[0]| == 0 ==> Chars(lines) == []
    ensures |lines| == 0 <==> r == Err("Unexpected empty line")
    ensures r.Ok? ==> r.value.height == |lines| && r.value.width == |lines[0]|
    ensures |lines| > 0 ==> (r.Ok? <==> forall j :: 0 <= j < |Chars(lines)| ==> ParseTile(Chars(lines)[j]).Ok?)
    ensures r.Ok? && r.value.width > 0 ==> forall j :: 0 <= j < |Chars(lines)| ==>
      At(j, r.value.width) in r.value.tiles && ParseTile(Chars(lines)[j]) == Ok(r.value.tiles[At(j, r.value.width)])
    ensures r.Ok? && r.value.width > 0 ==> forall p :: p in r.value.tiles ==> exists j :: 0 <= j < |Chars(lines)| && At(j, r.value.width) == p
    ensures r.Ok? && r.value.width == 0 ==> r.value.tiles == map[]
  {
    if |lines| == 0 then Err("Unexpected empty line")
    else if |lines[0]| == 0 then Ok(Input(|lines|, 0, map[]))
    else
      var tiles :- ParseTiles(Chars(lines), |lines[0]|, 0);
      ParseTilesMap(Chars(lines), |lines[0]|, 0);
      Ok(Input(|lines|, |lines[0]|, tiles))
  }

  /** A cell the hike may enter: a path or a slope. */
  predicate Open(tiles: Tiles, q: Cell) {
    q in tiles && tiles[q] != Forest
  }

  /** A part 1 search state: the position and the direction of the last move. */
  type State = (Cell, Direction)

  /** The filters of the `neighbors` closure of `part1`, for a move in direction d from s on
      a tile: the step exists, enters a path or slope, follows the slope when on one, does
      not reverse, and stays within the height and width. */
  predicate Allowed(input: Input, s: State, tile: Tile, d: Direction) {
    Step(d, s.0).Some? && Open(input.tiles, Step(d, s.0).value) &&
    (tile.Slope? ==> d == tile.dir) && d != Reverse(s.1) &&
    Step(d, s.0).value.0 < input.height && Step(d, s.0).value.1 < input.width
  }

  /** The `neighbors` closure of `part1` over the directions ds, each move weighing 1. */
  function Moves(input: Input, s: State, tile: Tile, ds: seq<Direction>): (r: seq<(State, nat)>)
    ensures forall step :: step in r ==>
      step.1 == 1 && step.0.1 in ds && Allowed(input, s, tile, step.0.1) && Step(step.0.1, s.0) == Some(step.0.0)
    ensures forall d :: d in ds && Allowed(input, s, tile, d) ==> ((Step(d, s.0).value, d), 1) in r
  {
    if ds == [] then []
    else
      var d := ds[0];
      (if Allowed(input, s, tile, d) then [((Step(d, s.0).value, d), 1)] else []) + Moves(input, s, tile, ds[1..])
  }

  /** The edges of part 1; None for a position without a tile, where the closure panics. */
  function Next(input: Input): State -> Option<seq<(State, nat)>> {
    (s: State) => if s.0 in input.tiles then Some(Moves(input, s, input.tiles[s.0], Directions)) else None
  }

  /** Every move of part 1 enters a path or slope, never reverses, leaves a slope only
      along it, and weighs 1. */
  lemma MoveRules(input: Input, s: State, step: (State, nat))
    requires Dijkstra.Edge(Next(input), s, step)
    ensures s.0 in input.tiles && Open(input.tiles, step.0.0) && step.0.1 != Reverse(s.1) && step.1 == 1
    ensures input.tiles[s.0].Slope? ==> step.0.1 == input.tiles[s.0].dir
    ensures Step(step.0.1, s.0) == Some(step.0.0) && Adjacent(s.0, step.0.0)
  {
  }

  /** The states the search can record: a tiled position and any direction. */
  function Bound(input: Input): set<State> {
    set p, d | p in input.tiles && d in Directions :: (p, d)
  }

  lemma InBound(input: Input, s: State)
    requires s.0 in input.tiles
    ensures s in Bound(input)
  {
    assert s.1 in Directions by {
      match s.1
      case North =>
      case South =>
      case West =>
      case East =>
    }
  }

  /** The search never reaches a position without a tile, so the closure never panics, and
      every move weighs at least 1. */
  lemma BoundClosed(input: Input)
    ensures Dijkstra.Closed(Next(input), Bound(input))
    ensures Longest.Weighted(Next(input), Bound(input))
  {
    forall x, step | x in Bound(input) && Dijkstra.Edge(Next(input), x, step) ensures step.0 in Bound(input) {
      MoveRules(input, x, step);
      InBound(input, step.0);
    }
  }

  /** `part1`'s source and target: a path cell on the top row, and one on the bottom row. */
  predicate IsSource(input: Input, p: Cell) {
    p in input.tiles && input.tiles[p] == Path && p.0 == 0
  }

  predicate IsTarget(input: Input, p: Cell) {
    p in input.tiles && input.tiles[p] == Path && p.0 + 1 == input.height
  }

  /** The map has both a top-row and a bottom-row path cell. */
  predicate HasEnds(input: Input) {
    (exists p :: p in input.tiles && IsSource(input, p)) && (exists p :: p in input.tiles && IsTarget(input, p))
  }

  function IsAt(target: Cell): State -> bool {
    (s: State) => s.0 == target
  }

  /** Some state on the target is reached, heading east out of the source, by a costliest
      route of length c. */
  ghost predicate Hike(input: Input, source: Cell, target: Cell, c: nat) {
    exists s: State :: s.0 == target && Longest.Longest(Next(input), (source, East), s, c)
  }

  /** No route from the source reaches the target. */
  ghost predicate NoHike(input: Input, source: Cell, target: Cell) {
    forall route :: Dijkstra.Route(Next(input), (source, East), route) ==> Dijkstra.End((source, East), route).0 != target
  }

  /** `part1`: the costliest route from some top-row path cell, heading east, to some
      bottom-row path cell, one per move. Which cells, when several qualify, is unspecified
      (they are found in a hash map). The search ends only when routes are bounded, which
      `limit` stands for. */
  method Part1(input: Input, ghost limit: nat) returns (r: Option<nat>)
    requires forall p :: IsSource(input, p) ==> Longest.Bounded(Next(input), (p, East), limit)
    ensures r.Some? ==> exists source, target :: IsSource(input, source) && IsTarget(input, target) && Hike(input, source, target, r.value)
    ensures r.None? ==> !HasEnds(input) || exists source, target :: IsSource(input, source) && IsTarget(input, target) && NoHike(input, source, target)
  {
    if source :| source in input.tiles && IsSource(input, source) {
      if target :| target in input.tiles && IsTarget(input, target) {
        BoundClosed(input);
        InBound(input, (source, East));
        r := Longest.Distance((source, East), Next(input), IsAt(target), Bound(input), limit);
        if r.Some? {
          ghost var s: State :| IsAt(target)(s) && Longest.Longest(Next(input), (source, East), s, r.value);
          assert Hike(input, source, target, r.value);
        } else {
          assert NoHike(input, source, target);
        }
      } else {
        r := None;
      }
    } else {
      r := None;
    }
  }
}
