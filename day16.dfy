/** Day 16, The Floor Will Be Lava: a beam enters a grid of mirrors and splitters and is
    reflected or split at each element; the tiles it passes through are energized. */
module Day16 {
  import opened Wrappers
  import opened Grid
  import Search

  datatype Element = Mirror1 | Mirror2 | SplitterH | SplitterV

  /** `Element::try_from`: '/' and '\' are the two mirrors, '|' and '-' the splitters. */
  function ParseElement(c: char): (r: Result<Element>)
    ensures r.Ok? <==> c in "/\\|-"
    ensures r.Ok? ==> ShowElement(r.value) == c
    ensures r.Err? ==> r.error == "Invalid element: " + [c]
  {
    match c
    case '/' => Ok(Mirror1)
    case '\\' => Ok(Mirror2)
    case '|' => Ok(SplitterV)
    case '-' => Ok(SplitterH)
    case _ => Err("Invalid element: " + [c])
  }

  function ShowElement(e: Element): char {
    match e
    case Mirror1 => '/'
    case Mirror2 => '\\'
    case SplitterV => '|'
    case SplitterH => '-'
  }

  /** The elements by 1-based (row, column); empty tiles have no entry. */
  type Elements = map<Pos, Element>

  /** `parse`: the height, the width of the first line, and the elements. The first
      character that is neither '.' nor an element, in reading order, is reported. */
  function Parse(lines: seq<string>): (r: Result<(nat, nat, Elements)>)
    ensures r.Ok? <==> |lines| > 0 && forall j, i :: 0 <= j < |lines| && 0 <= i < |lines[j]| ==> lines[j][i] in "./\\|-"
    ensures r.Ok? ==> r.value.0 == |lines| && r.value.1 == |lines[0]|
    ensures r.Ok? ==> forall p :: p in r.value.2 <==> 1 <= p.0 <= |lines| && 1 <= p.1 <= |lines[p.0 - 1]| && lines[p.0 - 1][p.1 - 1] != '.'
    ensures r.Ok? ==> forall p :: p in r.value.2 ==> ShowElement(r.value.2[p]) == lines[p.0 - 1][p.1 - 1]
  {
    if |lines| == 0 then Err("Unexpected empty line")
    else
      var elements :- ParseRows(lines, 0);
      ParseRowsMap(lines, 0);
      Ok((|lines|, |lines[0]|, elements))
  }

  function ParseRows(lines: seq<string>, j: nat): (r: Result<Elements>)
    requires j <= |lines|
    ensures r.Ok? <==> forall k, i :: j <= k < |lines| && 0 <= i < |lines[k]| ==> lines[k][i] in "./\\|-"
    decreases |lines| - j
  {
    if j == |lines| then Ok(map[])
    else
      var row :- ParseRow(lines[j], j + 1, 0);
      var rest :- ParseRows(lines, j + 1);
      Ok(row + rest)
  }

  /** The rows from the j-th on hold exactly the elements of those lines, each shown back
      as its character. */
  lemma {:induction false} ParseRowsMap(lines: seq<string>, j: nat)
    requires j <= |lines| && ParseRows(lines, j).Ok?
    ensures var m := ParseRows(lines, j).value;
      (forall p :: p in m <==> j + 1 <= p.0 <= |lines| && 1 <= p.1 <= |lines[p.0 - 1]| && lines[p.0 - 1][p.1 - 1] != '.') &&
      forall p :: p in m ==> ShowElement(m[p]) == lines[p.0 - 1][p.1 - 1]
    decreases |lines| - j
  {
    if j < |lines| {
      ParseRowsMap(lines, j + 1);
    }
  }

  function ParseRow(line: string, row: nat, i: nat): (r: Result<Elements>)
    requires i <= |line|
    ensures r.Ok? <==> forall k :: i <= k < |line| ==> line[k] in "./\\|-"
    ensures r.Ok? ==> forall p :: p in r.value <==> p.0 == row && i + 1 <= p.1 <= |line| && line[p.1 - 1] != '.'
    ensures r.Ok? ==> forall p :: p in r.value ==> ShowElement(r.value[p]) == line[p.1 - 1]
    decreases |line| - i
  {
    if i == |line| then Ok(map[])
    else if line[i] == '.' then ParseRow(line, row, i + 1)
    else
      var e :- ParseElement(line[i]);
      var rest :- ParseRow(line, row, i + 1);
      Ok(rest[(row, i + 1) := e])
  }

  datatype Direction = Up | Down | Left | Right

  /** `Direction::step`. */
  function Step(d: Direction, p: Pos): (r: Pos)
    ensures (r.0 == p.0 && (r.1 - p.1 == 1 || p.1 - r.1 == 1)) || (r.1 == p.1 && (r.0 - p.0 == 1 || p.0 - r.0 == 1))
  {
    match d
    case Up => (p.0 - 1, p.1)
    case Down => (p.0 + 1, p.1)
    case Left => (p.0, p.1 - 1)
    case Right => (p.0, p.1 + 1)
  }

  function Reverse(d: Direction): Direction {
    match d
    case Up => Down
    case Down => Up
    case Left => Right
    case Right => Left
  }

  predicate Horizontal(d: Direction) {
    d == Left || d == Right
  }

  /** The directions a beam leaves a tile in, given what is on the tile and the direction
      it travels in: the table of `neighbors`. */
  function Outgoing(e: Option<Element>, d: Direction): (r: seq<Direction>)
    ensures 1 <= |r| <= 2
  {
    match (e, d)
    case (None, _) => [d]
    case (Some(Mirror1), Up) => [Right]
    case (Some(Mirror1), Down) => [Left]
    case (Some(Mirror1), Left) => [Down]
    case (Some(Mirror1), Right) => [Up]
    case (Some(Mirror2), Up) => [Left]
    case (Some(Mirror2), Down) => [Right]
    case (Some(Mirror2), Left) => [Up]
    case (Some(Mirror2), Right) => [Down]
    case (Some(SplitterH), Left) => [d]
    case (Some(SplitterH), Right) => [d]
    case (Some(SplitterH), _) => [Left, Right]
    case (Some(SplitterV), Up) => [d]
    case (Some(SplitterV), Down) => [d]
    case (Some(SplitterV), _) => [Up, Down]
  }

  /** An empty tile, or a splitter met along its axis, lets the beam through; a splitter
      met across its axis sends out the two perpendicular beams. */
  lemma PassOrSplit(e: Option<Element>, d: Direction)
    requires e.None? || e == Some(SplitterH) || e == Some(SplitterV)
    ensures (e.None? || (e == Some(SplitterH) <==> Horizontal(d))) ==> Outgoing(e, d) == [d]
    ensures e == Some(SplitterH) && !Horizontal(d) ==> Outgoing(e, d) == [Left, Right]
    ensures e == Some(SplitterV) && Horizontal(d) ==> Outgoing(e, d) == [Up, Down]
  {
  }

  /** A mirror sends each incoming direction out in one direction, always turning, and no
      two incoming directions the same way; a beam sent back the way it left retraces its
      path. */
  lemma MirrorTurns(m: Element, d: Direction, d': Direction)
    requires m == Mirror1 || m == Mirror2
    ensures |Outgoing(Some(m), d)| == 1
    ensures Horizontal(Outgoing(Some(m), d)[0]) != Horizontal(d)
    ensures Outgoing(Some(m), d) == Outgoing(Some(m), d') ==> d == d'
    ensures Outgoing(Some(m), Reverse(Outgoing(Some(m), d)[0])) == [Reverse(d)]
  {
  }

  type State = (Pos, Direction)

  predicate Inside(p: Pos, height: nat, width: nat) {
    1 <= p.0 <= height && 1 <= p.1 <= width
  }

  /** `neighbors`: the beams leaving the state's tile, one step on, that are still inside
      the grid. */
  function Neighbors(s: State, elements: Elements, height: nat, width: nat): (r: seq<State>)
    ensures forall k :: 0 <= k < |r| ==> Inside(r[k].0, height, width)
    ensures forall t :: t in r <==> t.1 in Outgoing(Lookup(elements, s.0), s.1) && t.0 == Step(t.1, s.0) && Inside(t.0, height, width)
  {
    Keep(Beams(s.0, Outgoing(Lookup(elements, s.0), s.1)), height, width)
  }

  function Lookup(elements: Elements, p: Pos): Option<Element> {
    if p in elements then Some(elements[p]) else None
  }

  function Beams(p: Pos, ds: seq<Direction>): (r: seq<State>)
    ensures forall t :: t in r <==> t.1 in ds && t.0 == Step(t.1, p)
  {
    if ds == [] then [] else [(Step(ds[0], p), ds[0])] + Beams(p, ds[1..])
  }

  /** The filter on the grid bounds. */
  function Keep(beams: seq<State>, height: nat, width: nat): (r: seq<State>)
    ensures forall t :: t in r <==> t in beams && Inside(t.0, height, width)
    ensures forall k :: 0 <= k < |r| ==> Inside(r[k].0, height, width)
  {
    if beams == [] then []
    else (if Inside(beams[0].0, height, width) then [beams[0]] else []) + Keep(beams[1..], height, width)
  }

  function Next(elements: Elements, height: nat, width: nat): State -> seq<State> {
    s => Neighbors(s, elements, height, width)
  }

  /** Every state inside the grid, and the start. */
  function Bound(height: nat, width: nat, start: State): (r: set<State>)
    ensures start in r
    ensures forall s :: s in r <==> s == start || (Inside(s.0, height, width))
  {
    var all := {Up, Down, Left, Right};
    var r := (set j, i, d | 1 <= j <= height && 1 <= i <= width && d in all :: ((j, i), d)) + {start};
    assert forall s: State :: Inside(s.0, height, width) ==> s in r by {
      forall s: State | Inside(s.0, height, width) ensures s in r {
        var ((j, i), d) := s;
        EveryDirection(d);
      }
    }
    r
  }

  lemma EveryDirection(d: Direction)
    ensures d in {Up, Down, Left, Right}
  {
  }

  lemma BoundClosed(elements: Elements, height: nat, width: nat, start: State)
    ensures Search.Closed(Next(elements, height, width), Bound(height, width, start))
  {
  }

  /** The states the beam reaches from the start. */
  ghost function Lit(elements: Elements, height: nat, width: nat, start: State): set<State> {
    set s | s in Bound(height, width, start) && Search.Reachable(Next(elements, height, width), start, s)
  }

  function Positions(states: set<State>): (r: set<Pos>)
    ensures forall p :: p in r <==> exists d :: (p, d) in states
  {
    set s | s in states :: s.0
  }

  /** The number of energized tiles for a beam entering at `start`. */
  ghost function Energized(elements: Elements, height: nat, width: nat, start: State): nat {
    |Positions(Lit(elements, height, width, start))|
  }

  /** An in-bounds entry energizes its own tile and no more tiles than the grid has. */
  lemma EnergizedBounds(elements: Elements, height: nat, width: nat, start: State)
    requires Inside(start.0, height, width)
    ensures 1 <= Energized(elements, height, width, start) <= height * width
  {
    var lit := Lit(elements, height, width, start);
    assert Search.PathFrom(Next(elements, height, width), [start], start, start);
    assert start in lit;
    assert start.0 in Positions(lit);
    assert forall s :: s in lit ==> Inside(s.0, height, width);
    WithinBox(Positions(lit), 1, height, 1, width);
  }

  /** `count_energized_tiles`: the breadth-first search over beam states, then the
      number of distinct tiles among the states seen. */
  method CountEnergized(elements: Elements, height: nat, width: nat, start: State) returns (count: nat)
    ensures count == Energized(elements, height, width, start)
    ensures Inside(start.0, height, width) ==> 1 <= count <= height * width
  {
    BoundClosed(elements, height, width, start);
    var seen, order := Search.Explore(start, Next(elements, height, width), Bound(height, width, start));
    assert seen == Lit(elements, height, width, start);
    count := |Positions(seen)|;
    if Inside(start.0, height, width) {
      EnergizedBounds(elements, height, width, start);
    }
  }

  /** `part1`: the beam enters at the top-left tile heading right. */
  method Part1(elements: Elements, height: nat, width: nat) returns (count: nat)
    ensures count == Energized(elements, height, width, ((1, 1), Right))
    ensures height >= 1 && width >= 1 ==> 1 <= count <= height * width
  {
    count := CountEnergized(elements, height, width, ((1, 1), Right));
  }

  /** The entries tried by `part2`: for each row the left edge heading right and the right
      edge heading left, then for each column the top edge heading down and the bottom edge
      heading up. */
  function Entries(height: nat, width: nat): (r: seq<State>)
    ensures |r| == 2 * (height + width)
    ensures height >= 1 && width >= 1 ==> forall k :: 0 <= k < |r| ==> Inside(r[k].0, height, width)
  {
    RowEntries(height, width) + ColumnEntries(height, width)
  }

  function RowEntries(j: nat, width: nat): (r: seq<State>)
    ensures |r| == 2 * j
    ensures forall k :: 0 <= k < |r| ==> 1 <= r[k].0.0 <= j && (r[k].0.1 == 1 || r[k].0.1 == width)
  {
    if j == 0 then [] else RowEntries(j - 1, width) + [((j, 1), Right), ((j, width), Left)]
  }

  function ColumnEntries(height: nat, i: nat): (r: seq<State>)
    ensures |r| == 2 * i
    ensures forall k :: 0 <= k < |r| ==> 1 <= r[k].0.1 <= i && (r[k].0.0 == 1 || r[k].0.0 == height)
  {
    if i == 0 then [] else ColumnEntries(height, i - 1) + [((1, i), Down), ((height, i), Up)]
  }

  /** The top-left entry heading right is the first one `part2` tries. */
  lemma {:induction false} FirstEntry(height: nat, width: nat)
    requires height >= 1
    ensures Entries(height, width)[0] == ((1, 1), Right)
  {
    FirstRowEntry(height, width);
  }

  lemma {:induction false} FirstRowEntry(j: nat, width: nat)
    requires j >= 1
    ensures RowEntries(j, width)[0] == ((1, 1), Right)
  {
    if j > 1 {
      FirstRowEntry(j - 1, width);
    }
  }

  /** `part2`: the count for every edge entry, then the largest of them; `None` when
      there are no entries. */
  method Part2(elements: Elements, height: nat, width: nat) returns (best: Option<nat>)
    ensures best.None? <==> height == 0 && width == 0
    ensures best.Some? ==> best.value in Scores(elements, height, width, Entries(height, width))
    ensures best.Some? ==> forall k :: 0 <= k < |Entries(height, width)| ==> Energized(elements, height, width, Entries(height, width)[k]) <= best.value
  {
    var entries := Entries(height, width);
    ghost var scores := Scores(elements, height, width, entries);
    var counts := [];
    var k := 0;
    while k < |entries|
      invariant k <= |entries| && counts == scores[..k]
    {
      var count := CountEnergized(elements, height, width, entries[k]);
      assert scores[..k + 1] == scores[..k] + [count];
      counts := counts + [count];
      k := k + 1;
    }
    assert counts == scores;
    best := Max(counts);
  }

  /** `Iterator::max`. */
  function Max(xs: seq<nat>): (r: Option<nat>)
    ensures r.None? <==> xs == []
    ensures r.Some? ==> r.value in xs && forall k :: 0 <= k < |xs| ==> xs[k] <= r.value
  {
    if xs == [] then None
    else
      match Max(xs[1..])
      case None => Some(xs[0])
      case Some(m) => Some(if xs[0] < m then m else xs[0])
  }

  ghost function Scores(elements: Elements, height: nat, width: nat, entries: seq<State>): (r: seq<nat>)
    ensures |r| == |entries|
    ensures forall k :: 0 <= k < |r| ==> r[k] == Energized(elements, height, width, entries[k])
  {
    seq(|entries|, k requires 0 <= k < |entries| => Energized(elements, height, width, entries[k]))
  }

  /** Part 2's answer is at least part 1's: the top-left entry is among those tried. */
  lemma Part2AtLeastPart1(elements: Elements, height: nat, width: nat, best: nat)
    requires height >= 1
    requires forall k :: 0 <= k < |Entries(height, width)| ==> Energized(elements, height, width, Entries(height, width)[k]) <= best
    ensures Energized(elements, height, width, ((1, 1), Right)) <= best
  {
    FirstEntry(height, width);
  }
}
