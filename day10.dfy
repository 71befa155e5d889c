/** Day 10, Pipe Maze: a grid of pipes holds one loop through the start tile S. Part 1 is the
    distance along the loop to its farthest tile; part 2 counts the tiles the loop encloses,
    by drawing the loop at three times the scale and flood-filling around it. */
module Day10 {
  import opened Wrappers
  import opened Grid
  import Flood
  import Search

  datatype Pipe = Vertical | Horizontal | BendNorthEast | BendNorthWest | BendSouthEast | BendSouthWest

  datatype Direction = North | South | West | East

  function Move(p: Pos, d: Direction): Pos {
    match d
    case North => (p.0 - 1, p.1)
    case South => (p.0 + 1, p.1)
    case West => (p.0, p.1 - 1)
    case East => (p.0, p.1 + 1)
  }

  function Opposite(d: Direction): Direction {
    match d
    case North => South
    case South => North
    case West => East
    case East => West
  }

  /** The two sides a pipe connects. */
  function Ends(pipe: Pipe): (Direction, Direction) {
    match pipe
    case Vertical => (North, South)
    case Horizontal => (West, East)
    case BendNorthEast => (North, East)
    case BendNorthWest => (North, West)
    case BendSouthEast => (South, East)
    case BendSouthWest => (South, West)
  }

  predicate Opens(pipe: Pipe, d: Direction) {
    d == Ends(pipe).0 || d == Ends(pipe).1
  }

  /** Each pair of distinct sides is connected by exactly one pipe. */
  lemma EndsDetermine(p: Pipe, q: Pipe)
    requires forall d :: Opens(p, d) <==> Opens(q, d)
    ensures p == q
  {
    assert Opens(p, Ends(p).0) && Opens(p, Ends(p).1);
  }

  function Symbol(pipe: Pipe): char {
    match pipe
    case Vertical => '|'
    case Horizontal => '-'
    case BendNorthEast => 'L'
    case BendNorthWest => 'J'
    case BendSouthEast => 'F'
    case BendSouthWest => '7'
  }

  /** `Pipe::try_from`: the six pipe characters, one pipe each. */
  function ParsePipe(c: char): (r: Result<Pipe>)
    ensures r.Ok? <==> c in "|-LJF7"
    ensures r.Ok? ==> Symbol(r.value) == c
    ensures r.Err? ==> r.error == "Invalid pipe: " + [c]
  {
    match c
    case '|' => Ok(Vertical)
    case '-' => Ok(Horizontal)
    case 'L' => Ok(BendNorthEast)
    case 'J' => Ok(BendNorthWest)
    case 'F' => Ok(BendSouthEast)
    case '7' => Ok(BendSouthWest)
    case _ => Err("Invalid pipe: " + [c])
  }

  lemma SymbolRoundTrip(pipe: Pipe)
    ensures ParsePipe(Symbol(pipe)) == Ok(pipe)
  {
  }

  type Pipes = map<Pos, Pipe>

  /** The pipe of map.get, when it is one of the listed ones. */
  predicate Holds(m: Pipes, p: Pos, pipes: set<Pipe>) {
    p in m && m[p] in pipes
  }

  /** The neighbour of s on side d has a pipe that connects back to s. */
  predicate Connects(m: Pipes, s: Pos, d: Direction) {
    Move(s, d) in m && Opens(m[Move(s, d)], Opposite(d))
  }

  /** Both sides of the pipe are connected back. */
  predicate Fits(m: Pipes, s: Pos, pipe: Pipe) {
    Connects(m, s, Ends(pipe).0) && Connects(m, s, Ends(pipe).1)
  }

  /** The order of the arms of `determine_starting_pipe`. */
  function Rank(pipe: Pipe): nat {
    match pipe
    case Horizontal => 0
    case Vertical => 1
    case BendNorthEast => 2
    case BendNorthWest => 3
    case BendSouthEast => 4
    case BendSouthWest => 5
  }

  /** `determine_starting_pipe`: the pipe under S from the pipes left, right, above and
      below it, the first arm that matches deciding; the arms list, for each side, the
      pipes that connect back. */
  function StartingPipe(s: Pos, m: Pipes): (r: Result<Pipe>)
    ensures r.Err? ==> r.error == "No starting position found"
  {
    var left, right, up, down := (s.0, s.1 - 1), (s.0, s.1 + 1), (s.0 - 1, s.1), (s.0 + 1, s.1);
    var fromLeft := Holds(m, left, {Horizontal, BendNorthEast, BendSouthEast});
    var fromRight := Holds(m, right, {Horizontal, BendNorthWest, BendSouthWest});
    var fromUp := Holds(m, up, {Vertical, BendSouthEast, BendSouthWest});
    var fromDown := Holds(m, down, {Vertical, BendNorthEast, BendNorthWest});
    if fromLeft && fromRight then Ok(Horizontal)
    else if fromUp && fromDown then Ok(Vertical)
    else if fromRight && fromUp then Ok(BendNorthEast)
    else if fromLeft && fromUp then Ok(BendNorthWest)
    else if fromRight && fromDown then Ok(BendSouthEast)
    else if fromLeft && fromDown then Ok(BendSouthWest)
    else Err("No starting position found")
  }

  /** The pipes each arm lists for a side are those connecting back on that side. */
  lemma Sides(s: Pos, m: Pipes)
    ensures Holds(m, (s.0, s.1 - 1), {Horizontal, BendNorthEast, BendSouthEast}) == Connects(m, s, West)
    ensures Holds(m, (s.0, s.1 + 1), {Horizontal, BendNorthWest, BendSouthWest}) == Connects(m, s, East)
    ensures Holds(m, (s.0 - 1, s.1), {Vertical, BendSouthEast, BendSouthWest}) == Connects(m, s, North)
    ensures Holds(m, (s.0 + 1, s.1), {Vertical, BendNorthEast, BendNorthWest}) == Connects(m, s, South)
  {
  }

  /** The starting pipe is one whose two sides both connect back, the first such in arm
      order; there is none exactly when no pipe fits. */
  lemma StartingPipeFits(s: Pos, m: Pipes)
    ensures var r := StartingPipe(s, m);
      (r.Ok? ==> Fits(m, s, r.value) && forall q :: Rank(q) < Rank(r.value) ==> !Fits(m, s, q)) &&
      (r.Err? <==> forall q :: !Fits(m, s, q))
  {
    Sides(s, m);
    var r := StartingPipe(s, m);
    var bound := if r.Ok? then Rank(r.value) else 6;
    forall q | Rank(q) < bound ensures !Fits(m, s, q) {
      match q
      case Horizontal =>
      case Vertical =>
      case BendNorthEast =>
      case BendNorthWest =>
      case BendSouthEast =>
      case BendSouthWest =>
    }
  }

  datatype Input = Input(start: Pos, pipes: Pipes)

  predicate IsPipeChar(c: char) {
    c in "|-LJF7"
  }

  predicate Allowed(c: char) {
    c == '.' || c == 'S' || IsPipeChar(c)
  }

  function At(lines: seq<string>, p: Pos): char
    requires InText(lines, p)
  {
    lines[p.0][p.1]
  }

  /** Every character of the text is '.', 'S' or a pipe. */
  ghost predicate Valid(lines: seq<string>) {
    forall p :: InText(lines, p) ==> Allowed(At(lines, p))
  }

  /** p is the first character, in reading order, that is none of those. */
  ghost predicate FirstInvalid(lines: seq<string>, p: Pos) {
    InText(lines, p) && !Allowed(At(lines, p)) &&
    forall q :: InText(lines, q) && Before(q, p) ==> Allowed(At(lines, q))
  }

  ghost predicate IsStart(lines: seq<string>, p: Pos) {
    InText(lines, p) && At(lines, p) == 'S'
  }

  /** s is the last S in reading order: a later one overwrites an earlier one. */
  ghost predicate LastStart(lines: seq<string>, s: Pos) {
    IsStart(lines, s) && forall q :: IsStart(lines, q) ==> q == s || Before(q, s)
  }

  /** The pipes of the text, by (row, column). */
  function Drawn(lines: seq<string>): (m: Pipes)
    ensures forall p :: p in m <==> InText(lines, p) && IsPipeChar(At(lines, p))
    ensures forall p :: p in m ==> ParsePipe(At(lines, p)) == Ok(m[p])
  {
    map j, i | 0 <= j < |lines| && 0 <= i < |lines[j]| && IsPipeChar(lines[j][i]) :: (j, i) := ParsePipe(lines[j][i]).value
  }

  /** The state of `parse` once every character before line j, column i has been read: all
      of them are allowed, m holds the pipes among them, and start is the last S among them. */
  ghost predicate Scanned(lines: seq<string>, j: int, i: int, m: Pipes, start: Option<Pos>) {
    (forall p :: InText(lines, p) && Before(p, (j, i)) ==> Allowed(At(lines, p))) &&
    (forall p :: p in m <==> InText(lines, p) && Before(p, (j, i)) && IsPipeChar(At(lines, p))) &&
    (forall p :: p in m ==> ParsePipe(At(lines, p)) == Ok(m[p])) &&
    (start.None? <==> forall p :: IsStart(lines, p) ==> !Before(p, (j, i))) &&
    (start.Some? ==> (IsStart(lines, start.value) && Before(start.value, (j, i)) &&
      forall q :: IsStart(lines, q) && Before(q, (j, i)) ==> q == start.value || Before(q, start.value)))
  }

  /** Reading one allowed character. */
  lemma ScanStep(lines: seq<string>, j: int, i: int, m: Pipes, start: Option<Pos>, m': Pipes, start': Option<Pos>)
    requires 0 <= j < |lines| && 0 <= i < |lines[j]| && Scanned(lines, j, i, m, start)
    requires Allowed(lines[j][i])
    requires m' == if IsPipeChar(lines[j][i]) then m[(j, i) := ParsePipe(lines[j][i]).value] else m
    requires start' == if lines[j][i] == 'S' then Some((j, i)) else start
    ensures Scanned(lines, j, i + 1, m', start')
  {
    assert At(lines, (j, i)) == lines[j][i];
    assert forall p :: Before(p, (j, i + 1)) <==> Before(p, (j, i)) || p == (j, i);
  }

  /** Reading past the end of a line. */
  lemma ScanRow(lines: seq<string>, j: int, m: Pipes, start: Option<Pos>)
    requires 0 <= j < |lines| && Scanned(lines, j, |lines[j]|, m, start)
    ensures Scanned(lines, j + 1, 0, m, start)
  {
    assert forall p :: InText(lines, p) ==> (Before(p, (j + 1, 0)) <==> Before(p, (j, |lines[j]|)));
  }

  /** Having read everything. */
  lemma ScanDone(lines: seq<string>, m: Pipes, start: Option<Pos>)
    requires Scanned(lines, |lines|, 0, m, start)
    ensures Valid(lines) && m == Drawn(lines)
    ensures start.None? <==> forall p :: !IsStart(lines, p)
    ensures start.Some? ==> LastStart(lines, start.value)
  {
    assert forall p :: InText(lines, p) ==> Before(p, (|lines|, 0));
  }

  /** `parse`: the pipes by position, the last S as the start, and the pipe under it added. */
  method Parse(lines: seq<string>) returns (r: Result<Input>)
    ensures !Valid(lines) ==> exists p :: FirstInvalid(lines, p) && r == Err("Invalid pipe: " + [At(lines, p)])
    ensures Valid(lines) && (forall p :: !IsStart(lines, p)) ==> r == Err("No starting position found")
    ensures Valid(lines) && (exists p :: IsStart(lines, p)) ==>
      exists s :: LastStart(lines, s) &&
        r == match StartingPipe(s, Drawn(lines))
          case Ok(pipe) => Ok(Input(s, Drawn(lines)[s := pipe]))
          case Err(e) => Err(e)
  {
    var m: Pipes := map[];
    var start: Option<Pos> := None;
    for j := 0 to |lines|
      invariant Scanned(lines, j, 0, m, start)
    {
      var line := lines[j];
      for i := 0 to |line|
        invariant Scanned(lines, j, i, m, start)
      {
        var c := line[i];
        if c == 'S' {
          ScanStep(lines, j, i, m, start, m, Some((j, i)));
          start := Some((j, i));
        } else if c == '.' {
          ScanStep(lines, j, i, m, start, m, start);
        } else {
          match ParsePipe(c)
          case Err(e) => {
            assert At(lines, (j, i)) == c && FirstInvalid(lines, (j, i));
            return Err(e);
          }
          case Ok(pipe) => {
            ScanStep(lines, j, i, m, start, m[(j, i) := pipe], start);
            m := m[(j, i) := pipe];
          }
        }
      }
      ScanRow(lines, j, m, start);
    }
    ScanDone(lines, m, start);
    match start
    case None => {
      return Err("No starting position found");
    }
    case Some(s) => {
      match StartingPipe(s, m)
      case Err(e) => {
        return Err(e);
      }
      case Ok(pipe) => {
        return Ok(Input(s, m[s := pipe]));
      }
    }
  }

  // Walking the loop.

  /** The first move of `step` AS WRITTEN, when there is no previous position: down from a
      pipe open to the south, right from '-' and 'J', left from 'L'. */
  function FirstMoveAsWritten(pos: Pos, pipe: Pipe): Pos {
    if pipe in {Vertical, BendSouthEast, BendSouthWest} then (pos.0 + 1, pos.1)
    else if pipe in {Horizontal, BendNorthWest} then (pos.0, pos.1 + 1)
    else (pos.0, pos.1 - 1)
  }

  /** 'J' opens to the north and the west, yet the first move AS WRITTEN leaves it eastwards
      (and 'L' westwards). */
  lemma FirstMoveAsWrittenStrays(pos: Pos)
    ensures FirstMoveAsWritten(pos, BendNorthWest) == Move(pos, East) && !Opens(BendNorthWest, East)
    ensures FirstMoveAsWritten(pos, BendNorthEast) == Move(pos, West) && !Opens(BendNorthEast, West)
  {
  }

  /** The first move as intended: through a side the pipe opens, right from '-' and 'L',
      left from 'J'. */
  function FirstMove(pos: Pos, pipe: Pipe): (r: Pos)
    ensures exists d :: Opens(pipe, d) && r == Move(pos, d)
  {
    if pipe in {Vertical, BendSouthEast, BendSouthWest} then
      assert Opens(pipe, South); (pos.0 + 1, pos.1)
    else if pipe in {Horizontal, BendNorthEast} then
      assert Opens(pipe, East); (pos.0, pos.1 + 1)
    else
      assert Opens(pipe, West); (pos.0, pos.1 - 1)
  }

  /** The guarded arms of `step` when coming from prev: down unless prev is in the row
      below, up unless it is in the row above, left unless it is in the column to the left,
      right unless it is in the column to the right, each for the pipes open that way. */
  function Onward(pos: Pos, pipe: Pipe, prev: Pos): (r: Option<Pos>)
    ensures r.Some? ==> exists d :: Opens(pipe, d) && r.value == Move(pos, d)
  {
    if pipe in {Vertical, BendSouthEast, BendSouthWest} && prev.0 != pos.0 + 1 then
      assert Opens(pipe, South); Some((pos.0 + 1, pos.1))
    else if pipe in {Vertical, BendNorthEast, BendNorthWest} && prev.0 != pos.0 - 1 then
      assert Opens(pipe, North); Some((pos.0 - 1, pos.1))
    else if pipe in {Horizontal, BendNorthWest, BendSouthWest} && prev.1 != pos.1 - 1 then
      assert Opens(pipe, West); Some((pos.0, pos.1 - 1))
    else if pipe in {Horizontal, BendNorthEast, BendSouthEast} && prev.1 != pos.1 + 1 then
      assert Opens(pipe, East); Some((pos.0, pos.1 + 1))
    else None
  }

  /** Coming in through one side of a pipe, the walk leaves through the other. */
  lemma OnwardFollows(pos: Pos, pipe: Pipe, d: Direction)
    requires Opens(pipe, d)
    ensures var e := if d == Ends(pipe).0 then Ends(pipe).1 else Ends(pipe).0;
      Onward(pos, pipe, Move(pos, d)) == Some(Move(pos, e))
  {
  }

  /** `step` AS WRITTEN; None where it panics: on a position without a pipe, or when no
      arm applies. */
  function StepAsWritten(pos: Pos, prev: Option<Pos>, m: Pipes): Option<(Pos, Option<Pos>)> {
    if pos !in m then None
    else
      match prev
      case None => Some((FirstMoveAsWritten(pos, m[pos]), Some(pos)))
      case Some(q) =>
        match Onward(pos, m[pos], q)
        case None => None
        case Some(next) => Some((next, Some(pos)))
  }

  /** `step` with the intended first move; None where it panics. It moves to an
      orthogonal neighbour through a side the pipe opens, and the old position becomes the
      previous one. */
  function Step(pos: Pos, prev: Option<Pos>, m: Pipes): (r: Option<(Pos, Option<Pos>)>)
    ensures r.Some? ==> pos in m && r.value.1 == Some(pos)
    ensures r.Some? ==> exists d :: Opens(m[pos], d) && r.value.0 == Move(pos, d)
  {
    if pos !in m then None
    else
      match prev
      case None => Some((FirstMove(pos, m[pos]), Some(pos)))
      case Some(q) =>
        match Onward(pos, m[pos], q)
        case None => None
        case Some(next) => Some((next, Some(pos)))
  }

  /** A step never fails on a pipe entered through one of its sides, nor at the start. */
  lemma StepTotal(pos: Pos, prev: Option<Pos>, m: Pipes)
    requires pos in m
    requires prev.Some? ==> exists d :: Opens(m[pos], d) && prev.value == Move(pos, d)
    ensures Step(pos, prev, m).Some?
  {
    if prev.Some? {
      var d :| Opens(m[pos], d) && prev.value == Move(pos, d);
      OnwardFollows(pos, m[pos], d);
    }
  }

  /** The positions from pos onwards until a step leads back to start; None where a step
      panics or the fuel runs out. */
  function Walk(start: Pos, pos: Pos, prev: Option<Pos>, m: Pipes, fuel: nat): Option<seq<Pos>>
    decreases fuel
  {
    if fuel == 0 then None
    else
      match Step(pos, prev, m)
      case None => None
      case Some((next, prev')) =>
        if next == start then Some([pos])
        else
          match Walk(start, next, prev', m, fuel - 1)
          case None => None
          case Some(rest) => Some([pos] + rest)
  }

  /** `find_path`: the loop from the start, as long as it takes at most fuel steps. */
  function FindPath(start: Pos, m: Pipes, fuel: nat): Option<seq<Pos>> {
    Walk(start, start, None, m, fuel)
  }

  /** The step taken from the k-th position of a walk that began with prev. */
  function PrevAt(path: seq<Pos>, prev: Option<Pos>, k: nat): Option<Pos>
    requires k < |path|
  {
    if k == 0 then prev else Some(path[k - 1])
  }

  /** Where the walk goes after its k-th position. */
  function NextAt(path: seq<Pos>, start: Pos, k: nat): Pos
    requires k < |path|
  {
    if k + 1 < |path| then path[k + 1] else start
  }

  /** The k-th step of the walk, entered from the position before, leads to the next one. */
  predicate StepAt(path: seq<Pos>, start: Pos, prev: Option<Pos>, m: Pipes, k: nat)
    requires k < |path|
  {
    Step(path[k], PrevAt(path, prev, k), m) == Some((NextAt(path, start, k), Some(path[k])))
  }

  /** The walk is a chain of steps, the last leading back to start, which occurs nowhere
      after the first position. */
  ghost predicate Loop(path: seq<Pos>, start: Pos, prev: Option<Pos>, m: Pipes) {
    |path| >= 1 && start !in path[1..] &&
    forall k :: 0 <= k < |path| ==> StepAt(path, start, prev, m, k)
  }

  lemma {:induction false} WalkLoop(start: Pos, pos: Pos, prev: Option<Pos>, m: Pipes, fuel: nat)
    requires Walk(start, pos, prev, m, fuel).Some?
    ensures var path := Walk(start, pos, prev, m, fuel).value; path[0] == pos && Loop(path, start, prev, m)
    decreases fuel
  {
    var path := Walk(start, pos, prev, m, fuel).value;
    var (next, prev') := Step(pos, prev, m).value;
    assert prev' == Some(pos);
    if next == start {
      assert path == [pos];
      assert StepAt(path, start, prev, m, 0);
    } else {
      var rest := Walk(start, next, prev', m, fuel - 1).value;
      WalkLoop(start, next, prev', m, fuel - 1);
      assert path == [pos] + rest;
      assert path[1..] == rest && rest == [next] + rest[1..];
      forall k | 0 <= k < |path| ensures StepAt(path, start, prev, m, k) {
        if k > 0 {
          assert StepAt(rest, start, prev', m, k - 1);
          assert path[k] == rest[k - 1];
          assert PrevAt(path, prev, k) == PrevAt(rest, prev', k - 1);
          assert NextAt(path, start, k) == NextAt(rest, start, k - 1);
        }
      }
    }
  }

  /** The path found is a loop: it begins at the start, every step follows a pipe to an
      orthogonal neighbour, the last step returns to the start, and the start is not
      visited twice. */
  lemma FindPathLoop(start: Pos, m: Pipes, fuel: nat)
    requires FindPath(start, m, fuel).Some?
    ensures var path := FindPath(start, m, fuel).value;
      path[0] == start && Loop(path, start, None, m) && start !in path[1..]
  {
    WalkLoop(start, start, None, m, fuel);
  }

  /** The number of steps from the start to the k-th tile of a loop of n tiles, going the
      shorter way round. */
  function Distance(n: int, k: int): int {
    if k <= n - k then k else n - k
  }

  /** `part1`: half the length of the loop, the number of steps to the tile farthest from
      the start going either way round. */
  function Part1(input: Input, fuel: nat): (r: nat)
    requires FindPath(input.start, input.pipes, fuel).Some?
    ensures var n := |FindPath(input.start, input.pipes, fuel).value|;
      (exists k :: 0 <= k < n && r == Distance(n, k)) && forall k :: 0 <= k < n ==> Distance(n, k) <= r
  {
    var n := |FindPath(input.start, input.pipes, fuel).value|;
    FindPathLoop(input.start, input.pipes, fuel);
    assert Distance(n, n / 2) == n / 2;
    n / 2
  }

  // Part 2.

  /** A tile's centre at three times the scale. */
  function Scaled(p: Pos): Pos {
    (3 * p.0, 3 * p.1)
  }

  /** The straight piece of pipe drawn on side d of a tile. */
  function Straight(d: Direction): Pipe {
    if d == North || d == South then Vertical else Horizontal
  }

  /** `transform_tile`: the tile drawn at three times the scale: its centre carries the
      pipe, and the two cells on the sides the pipe opens carry straight pieces. */
  function TransformTile(p: Pos, pipe: Pipe): (r: seq<(Pos, Pipe)>)
    ensures |r| == 3 && r[1] == (Scaled(p), pipe)
    ensures r[0].0 == Move(Scaled(p), Ends(pipe).0) && r[0].1 == Straight(Ends(pipe).0)
    ensures r[2].0 == Move(Scaled(p), Ends(pipe).1) && r[2].1 == Straight(Ends(pipe).1)
  {
    var (j, i) := p;
    match pipe
    case Vertical => [((j * 3 - 1, i * 3), Vertical), ((j * 3, i * 3), Vertical), ((j * 3 + 1, i * 3), Vertical)]
    case Horizontal => [((j * 3, i * 3 - 1), Horizontal), ((j * 3, i * 3), Horizontal), ((j * 3, i * 3 + 1), Horizontal)]
    case BendNorthEast => [((j * 3 - 1, i * 3), Vertical), ((j * 3, i * 3), BendNorthEast), ((j * 3, i * 3 + 1), Horizontal)]
    case BendNorthWest => [((j * 3 - 1, i * 3), Vertical), ((j * 3, i * 3), BendNorthWest), ((j * 3, i * 3 - 1), Horizontal)]
    case BendSouthEast => [((j * 3 + 1, i * 3), Vertical), ((j * 3, i * 3), BendSouthEast), ((j * 3, i * 3 + 1), Horizontal)]
    case BendSouthWest => [((j * 3 + 1, i * 3), Vertical), ((j * 3, i * 3), BendSouthWest), ((j * 3, i * 3 - 1), Horizontal)]
  }

  /** The cells a tile occupies at three times the scale. */
  function Cells(p: Pos, pipe: Pipe): set<Pos> {
    var t := TransformTile(p, pipe);
    {t[0].0, t[1].0, t[2].0}
  }

  /** `transform_path`: the cells of the loop's tiles at three times the scale. */
  function TransformPath(path: seq<Pos>, m: Pipes): (r: set<Pos>)
    requires forall k :: 0 <= k < |path| ==> path[k] in m
  {
    if path == [] then {}
    else Cells(path[0], m[path[0]]) + TransformPath(path[1..], m)
  }

  /** The drawn loop holds the centre of each of its tiles. */
  lemma {:induction false} TransformPathCentres(path: seq<Pos>, m: Pipes)
    requires forall k :: 0 <= k < |path| ==> path[k] in m
    ensures forall k :: 0 <= k < |path| ==> Scaled(path[k]) in TransformPath(path, m)
  {
    if path != [] {
      var rest := path[1..];
      TransformPathCentres(rest, m);
      forall k | 0 < k < |path| ensures Scaled(path[k]) in TransformPath(path, m) {
        assert path[k] == rest[k - 1];
      }
    }
  }

  /** Each cell of the drawn loop is the centre of one of its tiles or one step from such a
      centre through a side its pipe opens. */
  lemma {:induction false} TransformPathNear(path: seq<Pos>, m: Pipes)
    requires forall k :: 0 <= k < |path| ==> path[k] in m
    ensures forall c :: c in TransformPath(path, m) ==> exists k :: 0 <= k < |path| && Near(c, path[k], m[path[k]])
  {
    if path != [] {
      var rest := path[1..];
      TransformPathNear(rest, m);
      forall c | c in TransformPath(path, m) ensures exists k :: 0 <= k < |path| && Near(c, path[k], m[path[k]]) {
        if c in Cells(path[0], m[path[0]]) {
          assert Near(c, path[0], m[path[0]]);
        } else {
          assert c in TransformPath(rest, m);
          var k :| 0 <= k < |rest| && Near(c, rest[k], m[rest[k]]);
          assert rest[k] == path[k + 1];
        }
      }
    }
  }

  /** c is the centre of tile p at three times the scale, or one step from it through a
      side the pipe opens. */
  predicate Near(c: Pos, p: Pos, pipe: Pipe) {
    c == Scaled(p) || c == Move(Scaled(p), Ends(pipe).0) || c == Move(Scaled(p), Ends(pipe).1)
  }

  /** The cells `fill` reaches from (-1, -1), rows -1..height and columns -1..width with the
      upper ends excluded. */
  ghost function Outside(drawn: set<Pos>, height: int, width: int): set<Pos> {
    if height < 0 || width < 0 then {(-1, -1)}
    else Flood.Outside(drawn, (-1, height - 1, -1, width - 1))
  }

  /** `fill`: the breadth-first search over the eight neighbours from (-1, -1), never
      entering the drawn loop nor leaving the rows -1..height and columns -1..width. */
  method Fill(drawn: set<Pos>, height: int, width: int) returns (outside: set<Pos>, ghost order: seq<Pos>)
    ensures outside == Outside(drawn, height, width)
    ensures Search.Distinct(order) && forall p :: p in outside <==> p in order
  {
    if height < 0 || width < 0 {
      outside, order := {(-1, -1)}, [(-1, -1)];
    } else {
      outside, order := Flood.Fill(drawn, (-1, height - 1, -1, width - 1));
    }
  }

  /** The outside holds (-1, -1); any other cell of it is off the drawn loop, in the rows
      -1..height and the columns -1..width. */
  lemma OutsideShape(drawn: set<Pos>, height: int, width: int)
    ensures (-1, -1) in Outside(drawn, height, width)
    ensures forall p :: p in Outside(drawn, height, width) ==>
      p == (-1, -1) || (p !in drawn && -1 <= p.0 < height && -1 <= p.1 < width)
  {
    if height >= 0 && width >= 0 {
      var b, c := (-1, height - 1, -1, width - 1), (-1, -1);
      assert Search.PathFrom(Flood.Next(drawn, b), [c], c, c);
      Flood.OffTrench(drawn, b, Flood.Outside(drawn, b));
    }
  }

  /** The tiles counted by `count_inside`: those whose centre, a cell (3j, 3i) inside the
      drawing, is neither outside nor on the drawn loop. */
  function Enclosed(drawn: set<Pos>, height: int, width: int, outside: set<Pos>): set<Pos> {
    set j, i | 0 <= j < height && 0 <= i < width && 3 * j < height && 3 * i < width &&
      Scaled((j, i)) !in outside && Scaled((j, i)) !in drawn :: (j, i)
  }

  /** `count_inside`. */
  function CountInside(drawn: set<Pos>, height: int, width: int, outside: set<Pos>): nat {
    |Enclosed(drawn, height, width, outside)|
  }

  /** At most one tile per centre cell of the drawing is counted. */
  lemma CountInsideBound(drawn: set<Pos>, height: int, width: int, outside: set<Pos>)
    requires height >= 0 && width >= 0
    ensures CountInside(drawn, height, width, outside) <= (height + 2) / 3 * ((width + 2) / 3)
  {
    WithinBox(Enclosed(drawn, height, width, outside), 0, (height + 2) / 3 - 1, 0, (width + 2) / 3 - 1);
  }

  /** No tile of the loop is counted as enclosed. */
  lemma LoopNotEnclosed(path: seq<Pos>, m: Pipes, height: int, width: int, outside: set<Pos>)
    requires forall k :: 0 <= k < |path| ==> path[k] in m
    ensures forall k :: 0 <= k < |path| ==> path[k] !in Enclosed(TransformPath(path, m), height, width, outside)
  {
    TransformPathCentres(path, m);
  }

  /** The fold of `part2` over the map's keys: the largest 3j + 2 and 3i + 2, from 0. */
  predicate Extent(height: int, width: int, keys: set<Pos>) {
    height >= 0 && width >= 0 &&
    (forall p :: p in keys ==> 3 * p.0 + 2 <= height && 3 * p.1 + 2 <= width) &&
    (height == 0 || exists p :: p in keys && height == 3 * p.0 + 2) &&
    (width == 0 || exists p :: p in keys && width == 3 * p.1 + 2)
  }

  /** The fold's result does not depend on the order it visits the keys in. */
  lemma ExtentUnique(h: int, w: int, h': int, w': int, keys: set<Pos>)
    requires Extent(h, w, keys) && Extent(h', w', keys)
    ensures h == h' && w == w'
  {
  }

  method FindExtent(keys: set<Pos>) returns (height: int, width: int)
    ensures Extent(height, width, keys)
  {
    height, width := 0, 0;
    var rest := keys;
    while rest != {}
      invariant rest <= keys && Extent(height, width, keys - rest)
      invariant (height == 0 || exists p :: p in keys && height == 3 * p.0 + 2) && (width == 0 || exists p :: p in keys && width == 3 * p.1 + 2)
    {
      var p :| p in rest;
      if 3 * p.0 + 2 > height {
        height := 3 * p.0 + 2;
      }
      if 3 * p.1 + 2 > width {
        width := 3 * p.1 + 2;
      }
      rest := rest - {p};
    }
  }

  /** `part2`: the loop drawn at three times the scale, filled around from outside; the
      answer is the number of tiles whose centre is neither reached nor on the loop. */
  method Part2(input: Input, fuel: nat) returns (count: nat)
    requires FindPath(input.start, input.pipes, fuel).Some?
    ensures var path := FindPath(input.start, input.pipes, fuel).value;
      forall k :: 0 <= k < |path| ==> path[k] in input.pipes
    ensures var path := FindPath(input.start, input.pipes, fuel).value;
      var drawn := TransformPath(path, input.pipes);
      exists height, width :: Extent(height, width, input.pipes.Keys) &&
        count == |Enclosed(drawn, height, width, Outside(drawn, height, width))|
  {
    var path := FindPathLoopOf(input, fuel);
    var drawn := TransformPath(path, input.pipes);
    var height, width := FindExtent(input.pipes.Keys);
    ghost var order;
    var outside;
    outside, order := Fill(drawn, height, width);
    count := CountInside(drawn, height, width, outside);
  }

  /** The loop as `part2` uses it: every tile on it has a pipe. */
  method FindPathLoopOf(input: Input, fuel: nat) returns (path: seq<Pos>)
    requires FindPath(input.start, input.pipes, fuel).Some?
    ensures path == FindPath(input.start, input.pipes, fuel).value
    ensures forall k :: 0 <= k < |path| ==> path[k] in input.pipes
  {
    path := FindPath(input.start, input.pipes, fuel).value;
    FindPathLoop(input.start, input.pipes, fuel);
    forall k | 0 <= k < |path| ensures path[k] in input.pipes {
      assert StepAt(path, input.start, None, input.pipes, k);
    }
  }

  // The first move as written, on a loop whose start lies on a 'J'.

  /** The pipes of the text "F-7", "|.|", "L-S", the start left out. */
  function Square(): Pipes {
    map[(0, 0) := BendSouthEast, (0, 1) := Horizontal, (0, 2) := BendSouthWest,
        (1, 0) := Vertical, (1, 2) := Vertical,
        (2, 0) := BendNorthEast, (2, 1) := Horizontal]
  }

  /** On that text the start is a 'J'; the first step as written leaves it eastwards onto an
      empty cell, and the next step panics. */
  lemma SquareStrays()
    ensures StartingPipe((2, 2), Square()) == Ok(BendNorthWest)
    ensures StepAsWritten((2, 2), None, Closed()) == Some(((2, 3), Some((2, 2))))
    ensures StepAsWritten((2, 3), Some((2, 2)), Closed()) == None
  {
  }

  /** The text with the start's pipe in place. */
  function Closed(): Pipes {
    Square()[(2, 2) := BendNorthWest]
  }

  /** The walk over the last three tiles of the loop. */
  lemma SquareTail()
    ensures var m, s := Closed(), (2, 2);
      Walk(s, (0, 1), Some((0, 0)), m, 3).Some? && |Walk(s, (0, 1), Some((0, 0)), m, 3).value| == 3
  {
    var m, s := Closed(), (2, 2);
    assert Step((1, 2), Some((0, 2)), m) == Some(((2, 2), Some((1, 2))));
    assert Walk(s, (1, 2), Some((0, 2)), m, 1).Some? && |Walk(s, (1, 2), Some((0, 2)), m, 1).value| == 1;
    assert Step((0, 2), Some((0, 1)), m) == Some(((1, 2), Some((0, 2))));
    assert Walk(s, (0, 2), Some((0, 1)), m, 2).Some? && |Walk(s, (0, 2), Some((0, 1)), m, 2).value| == 2;
    assert Step((0, 1), Some((0, 0)), m) == Some(((0, 2), Some((0, 1))));
    assert Walk(s, (0, 1), Some((0, 0)), m, 3).Some? && |Walk(s, (0, 1), Some((0, 0)), m, 3).value| == 3;
  }

  /** The walk over the last five tiles of the loop. */
  lemma SquareMiddle()
    ensures var m, s := Closed(), (2, 2);
      Walk(s, (1, 0), Some((2, 0)), m, 5).Some? && |Walk(s, (1, 0), Some((2, 0)), m, 5).value| == 5
  {
    var m, s := Closed(), (2, 2);
    SquareTail();
    assert Step((0, 0), Some((1, 0)), m) == Some(((0, 1), Some((0, 0))));
    assert Walk(s, (0, 0), Some((1, 0)), m, 4).Some? && |Walk(s, (0, 0), Some((1, 0)), m, 4).value| == 4;
    assert Step((1, 0), Some((2, 0)), m) == Some(((0, 0), Some((1, 0))));
    assert Walk(s, (1, 0), Some((2, 0)), m, 5).Some? && |Walk(s, (1, 0), Some((2, 0)), m, 5).value| == 5;
  }

  /** With the intended first move, the walk closes the loop of the eight tiles around the
      middle, and part 1 is 4. */
  lemma SquareLoop()
    ensures FindPath((2, 2), Closed(), 8).Some? && |FindPath((2, 2), Closed(), 8).value| == 8
    ensures Part1(Input((2, 2), Closed()), 8) == 4
  {
    var m, s := Closed(), (2, 2);
    SquareMiddle();
    assert Step((2, 0), Some((2, 1)), m) == Some(((1, 0), Some((2, 0))));
    assert Walk(s, (2, 0), Some((2, 1)), m, 6).Some? && |Walk(s, (2, 0), Some((2, 1)), m, 6).value| == 6;
    assert Step((2, 1), Some((2, 2)), m) == Some(((2, 0), Some((2, 1))));
    assert Walk(s, (2, 1), Some((2, 2)), m, 7).Some? && |Walk(s, (2, 1), Some((2, 2)), m, 7).value| == 7;
    assert Step(s, None, m) == Some(((2, 1), Some(s)));
    assert Walk(s, s, None, m, 8).Some? && |Walk(s, s, None, m, 8).value| == 8;
  }
}
