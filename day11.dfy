/** Day 11, Cosmic Expansion: every row and every column without a galaxy grows by a
    factor, and the answer is the sum of Manhattan distances over all pairs of galaxies. */
module Day11 {

  /** Galaxy positions (row, column), in the order `parse` produces them. */
  type Pos = (nat, nat)

  /** `parse` from row `j` on: the '#' positions of each line, row by row, left to right. */
  function GalaxiesFrom(lines: seq<string>, j: nat): (r: seq<Pos>)
    requires j <= |lines|
    ensures forall k :: 0 <= k < |r| ==> j <= r[k].0 < |lines| && r[k].1 < |lines[r[k].0]| && lines[r[k].0][r[k].1] == '#'
    ensures forall a, b :: j <= a < |lines| && 0 <= b < |lines[a]| && lines[a][b] == '#' ==> (a, b) in r
    decreases |lines| - j
  {
    if j == |lines| then [] else RowGalaxies(lines[j], j, 0) + GalaxiesFrom(lines, j + 1)
  }

  function RowGalaxies(line: string, j: nat, i: nat): (r: seq<Pos>)
    requires i <= |line|
    ensures forall k :: 0 <= k < |r| ==> r[k].0 == j && i <= r[k].1 < |line| && line[r[k].1] == '#'
    ensures forall b :: i <= b < |line| && line[b] == '#' ==> (j, b) in r
    decreases |line| - i
  {
    if i == |line| then []
    else (if line[i] == '#' then [(j, i)] else []) + RowGalaxies(line, j, i + 1)
  }

  /** `parse`: exactly the '#' positions. */
  function Galaxies(lines: seq<string>): (r: seq<Pos>)
    ensures forall p :: p in r <==> p.0 < |lines| && p.1 < |lines[p.0]| && lines[p.0][p.1] == '#'
  {
    GalaxiesFrom(lines, 0)
  }

  function Rows(galaxies: seq<Pos>): set<nat> {
    set k | 0 <= k < |galaxies| :: galaxies[k].0
  }

  function Columns(galaxies: seq<Pos>): set<nat> {
    set k | 0 <= k < |galaxies| :: galaxies[k].1
  }

  /** The occupied lines strictly below x. */
  function Below(occupied: set<nat>, x: nat): set<nat> {
    set l | l in occupied && l < x
  }

  /** The lines x, x + 1, ..., y - 1. */
  function Range(x: nat, y: nat): (r: set<nat>)
    ensures forall l :: l in r <==> x <= l < y
    ensures |r| == if x <= y then y - x else 0
    decreases y - x
  {
    if x >= y then {} else {x} + Range(x + 1, y)
  }

  lemma {:induction false} SubsetSize<T>(a: set<T>, b: set<T>)
    requires a <= b
    ensures |a| <= |b|
    decreases |b|
  {
    if a != {} {
      var x :| x in a;
      SubsetSize(a - {x}, b - {x});
    }
  }

  /** At most x of the occupied lines lie below x, so `j - count` never underflows. */
  lemma BelowBound(occupied: set<nat>, x: nat)
    ensures |Below(occupied, x)| <= x
  {
    SubsetSize(Below(occupied, x), Range(0, x));
  }

  /** Between x and y there are at most y - x occupied lines. */
  lemma BelowGrowth(occupied: set<nat>, x: nat, y: nat)
    requires x <= y
    ensures |Below(occupied, x)| <= |Below(occupied, y)| <= |Below(occupied, x)| + (y - x)
  {
    var between := set l | l in occupied && x <= l < y;
    assert Below(occupied, y) == Below(occupied, x) + between;
    assert Below(occupied, x) !! between;
    SubsetSize(between, Range(x, y));
  }

  /** A coordinate after expansion: it grows by factor - 1 for every empty line below it
      (`j + (j - count)` for factor 2, `j + 999999 * (j - count)` for a million). */
  function Expand(x: nat, occupied: set<nat>, factor: nat): (r: nat)
    requires factor >= 1
    ensures r >= x
  {
    BelowBound(occupied, x);
    var grow: nat := factor - 1;
    var empty: nat := x - |Below(occupied, x)|;
    x + grow * empty
  }

  /** The growth counts exactly the empty lines below the coordinate. */
  lemma ExpandCountsEmpty(x: nat, occupied: set<nat>, factor: nat)
    requires factor >= 1
    ensures Expand(x, occupied, factor) == x + (factor - 1) * |Range(0, x) - occupied|
  {
    assert Range(0, x) == Below(occupied, x) + (Range(0, x) - occupied);
    assert Below(occupied, x) !! (Range(0, x) - occupied);
  }

  /** With factor 1 nothing moves. */
  lemma ExpandByOne(x: nat, occupied: set<nat>)
    ensures Expand(x, occupied, 1) == x
  {
  }

  /** Expansion keeps the order of coordinates, and two coordinates move apart by
      factor - 1 for each empty line between them. */
  lemma ExpandGap(x: nat, y: nat, occupied: set<nat>, factor: nat)
    requires factor >= 1 && x <= y
    ensures Expand(x, occupied, factor) <= Expand(y, occupied, factor)
    ensures x < y ==> Expand(x, occupied, factor) < Expand(y, occupied, factor)
    ensures Expand(y, occupied, factor) - Expand(x, occupied, factor)
      == (y - x) + (factor - 1) * ((y - x) - (|Below(occupied, y)| - |Below(occupied, x)|))
  {
    BelowGrowth(occupied, x, y);
    BelowBound(occupied, x);
    BelowBound(occupied, y);
    GapArithmetic(factor, x, y, |Below(occupied, x)|, |Below(occupied, y)|);
  }

  /** The arithmetic of `ExpandGap`, over plain integers. */
  lemma GapArithmetic(factor: int, x: int, y: int, nx: int, ny: int)
    requires factor >= 1 && x <= y && nx <= x && ny <= y && nx <= ny <= nx + (y - x)
    ensures x + (factor - 1) * (x - nx) <= y + (factor - 1) * (y - ny)
    ensures x < y ==> x + (factor - 1) * (x - nx) < y + (factor - 1) * (y - ny)
    ensures (y + (factor - 1) * (y - ny)) - (x + (factor - 1) * (x - nx))
      == (y - x) + (factor - 1) * ((y - x) - (ny - nx))
  {
    var f := factor - 1;
    assert f * (y - ny) - f * (x - nx) == f * ((y - ny) - (x - nx));
    assert f * ((y - ny) - (x - nx)) >= 0 by {
      assert (y - ny) - (x - nx) >= 0;
    }
  }

  function Dist(a: Pos, b: Pos): nat {
    (if a.0 < b.0 then b.0 - a.0 else a.0 - b.0) + (if a.1 < b.1 then b.1 - a.1 else a.1 - b.1)
  }

  /** The Manhattan distance is symmetric and zero only between equal positions. */
  lemma DistMetric(a: Pos, b: Pos)
    ensures Dist(a, b) == Dist(b, a)
    ensures Dist(a, b) == 0 <==> a == b
  {
  }

  /** The sum of distances from `a` to every galaxy of `gs`. */
  function DistSum(a: Pos, gs: seq<Pos>): nat {
    if gs == [] then 0 else Dist(a, gs[0]) + DistSum(a, gs[1..])
  }

  /** The sum over `tuple_combinations`: every unordered pair, the earlier one first. */
  function PairSum(gs: seq<Pos>): nat {
    if gs == [] then 0 else DistSum(gs[0], gs[1..]) + PairSum(gs[1..])
  }

  /** The sum counts each pair once: it is half the sum over ordered pairs. */
  lemma {:induction false} PairSumHalf(gs: seq<Pos>)
    ensures 2 * PairSum(gs) == OrderedSum(gs, gs)
  {
    if gs != [] {
      var g := gs[0];
      var rest := gs[1..];
      PairSumHalf(rest);
      OrderedSumSplit(gs, rest, g);
    }
  }

  /** The sum of `Dist(a, b)` over all a in `xs` and b in `ys`. */
  function OrderedSum(xs: seq<Pos>, ys: seq<Pos>): nat {
    if xs == [] then 0 else DistSum(xs[0], ys) + OrderedSum(xs[1..], ys)
  }

  lemma {:induction false} DistSumSym(a: Pos, gs: seq<Pos>)
    ensures DistSum(a, gs) == OrderedSum(gs, [a])
  {
    if gs != [] {
      DistSumSym(a, gs[1..]);
      DistMetric(a, gs[0]);
      assert DistSum(gs[0], [a]) == Dist(gs[0], a) + DistSum(gs[0], []);
    }
  }

  lemma {:induction false} OrderedSumCons(xs: seq<Pos>, g: Pos, rest: seq<Pos>)
    ensures OrderedSum(xs, [g] + rest) == OrderedSum(xs, [g]) + OrderedSum(xs, rest)
  {
    if xs != [] {
      OrderedSumCons(xs[1..], g, rest);
      assert ([g] + rest)[1..] == rest;
      assert DistSum(xs[0], [g]) == Dist(xs[0], g) + DistSum(xs[0], []);
    }
  }

  /** Splitting off the first galaxy g: the ordered sum over gs x gs is twice g's row plus
      the ordered sum over the rest. */
  lemma OrderedSumSplit(gs: seq<Pos>, rest: seq<Pos>, g: Pos)
    requires gs == [g] + rest
    ensures OrderedSum(gs, gs) == 2 * DistSum(g, rest) + OrderedSum(rest, rest)
  {
    assert gs[1..] == rest;
    assert DistSum(g, gs) == Dist(g, g) + DistSum(g, rest);
    DistMetric(g, g);
    OrderedSumCons(rest, g, rest);
    DistSumSym(g, rest);
  }

  function ExpandAll(gs: seq<Pos>, rows: set<nat>, columns: set<nat>, factor: nat): (r: seq<Pos>)
    requires factor >= 1
    ensures |r| == |gs|
    ensures forall k :: 0 <= k < |gs| ==> r[k] == (Expand(gs[k].0, rows, factor), Expand(gs[k].1, columns, factor))
  {
    seq(|gs|, k requires 0 <= k < |gs| => (Expand(gs[k].0, rows, factor), Expand(gs[k].1, columns, factor)))
  }

  /** The empty lines between two coordinates: those from the smaller up to, not
      including, the larger that hold no galaxy. */
  function Empty(x: nat, y: nat, occupied: set<nat>): nat {
    var lo, hi := if x <= y then x else y, if x <= y then y else x;
    BelowGrowth(occupied, lo, hi);
    (hi - lo) - (|Below(occupied, hi)| - |Below(occupied, lo)|)
  }

  /** Two expanded coordinates lie as far apart as before plus factor - 1 for each
      empty line between them. */
  lemma ExpandApart(x: nat, y: nat, occupied: set<nat>, factor: nat)
    requires factor >= 1
    ensures var ex, ey := Expand(x, occupied, factor), Expand(y, occupied, factor);
      (if ex < ey then ey - ex else ex - ey) == (if x < y then y - x else x - y) + (factor - 1) * Empty(x, y, occupied)
  {
    if x <= y {
      ExpandGap(x, y, occupied, factor);
    } else {
      ExpandGap(y, x, occupied, factor);
    }
  }

  lemma Distribute(f: int, x: int, y: int)
    ensures f * x + f * y == f * (x + y)
  {
  }

  /** The empty rows and columns between two galaxies. */
  function EmptyBetween(a: Pos, b: Pos, rows: set<nat>, columns: set<nat>): nat {
    Empty(a.0, b.0, rows) + Empty(a.1, b.1, columns)
  }

  /** Expanding two galaxies adds factor - 1 to their distance for every empty row and
      column between them. */
  lemma DistExpanded(a: Pos, b: Pos, rows: set<nat>, columns: set<nat>, factor: nat)
    requires factor >= 1
    ensures Dist((Expand(a.0, rows, factor), Expand(a.1, columns, factor)), (Expand(b.0, rows, factor), Expand(b.1, columns, factor)))
      == Dist(a, b) + (factor - 1) * EmptyBetween(a, b, rows, columns)
  {
    ExpandApart(a.0, b.0, rows, factor);
    ExpandApart(a.1, b.1, columns, factor);
    Distribute(factor - 1, Empty(a.0, b.0, rows), Empty(a.1, b.1, columns));
  }

  /** The empty lines between `a` and each galaxy of `gs`, added up. */
  function EmptySum(a: Pos, gs: seq<Pos>, rows: set<nat>, columns: set<nat>): nat {
    if gs == [] then 0 else EmptyBetween(a, gs[0], rows, columns) + EmptySum(a, gs[1..], rows, columns)
  }

  /** The empty lines between the galaxies of every unordered pair, added up. */
  function EmptyPairSum(gs: seq<Pos>, rows: set<nat>, columns: set<nat>): nat {
    if gs == [] then 0 else EmptySum(gs[0], gs[1..], rows, columns) + EmptyPairSum(gs[1..], rows, columns)
  }

  lemma {:induction false} DistSumExpanded(a: Pos, gs: seq<Pos>, rows: set<nat>, columns: set<nat>, factor: nat)
    requires factor >= 1
    ensures DistSum((Expand(a.0, rows, factor), Expand(a.1, columns, factor)), ExpandAll(gs, rows, columns, factor))
      == DistSum(a, gs) + (factor - 1) * EmptySum(a, gs, rows, columns)
  {
    var e := ExpandAll(gs, rows, columns, factor);
    if gs != [] {
      DistSumExpanded(a, gs[1..], rows, columns, factor);
      DistExpanded(a, gs[0], rows, columns, factor);
      assert e[1..] == ExpandAll(gs[1..], rows, columns, factor);
      Distribute(factor - 1, EmptyBetween(a, gs[0], rows, columns), EmptySum(a, gs[1..], rows, columns));
    } else {
      assert e == [];
    }
  }

  /** Expansion adds factor - 1 to the pair sum for every empty line between the
      galaxies of every pair. */
  lemma {:induction false} PairSumExpanded(gs: seq<Pos>, rows: set<nat>, columns: set<nat>, factor: nat)
    requires factor >= 1
    ensures PairSum(ExpandAll(gs, rows, columns, factor)) == PairSum(gs) + (factor - 1) * EmptyPairSum(gs, rows, columns)
  {
    var e := ExpandAll(gs, rows, columns, factor);
    if gs != [] {
      PairSumExpanded(gs[1..], rows, columns, factor);
      DistSumExpanded(gs[0], gs[1..], rows, columns, factor);
      assert e[0] == (Expand(gs[0].0, rows, factor), Expand(gs[0].1, columns, factor));
      assert e[1..] == ExpandAll(gs[1..], rows, columns, factor);
      Distribute(factor - 1, EmptySum(gs[0], gs[1..], rows, columns), EmptyPairSum(gs[1..], rows, columns));
    } else {
      assert e == [];
    }
  }

  /** `part1` (factor 2) and `part2` (factor 1000000): the plain pair sum plus factor - 1
      for every empty row and column between the galaxies of every pair. */
  function Solve(gs: seq<Pos>, factor: nat): (r: nat)
    requires factor >= 1
    ensures r == PairSum(gs) + (factor - 1) * EmptyPairSum(gs, Rows(gs), Columns(gs))
  {
    PairSumExpanded(gs, Rows(gs), Columns(gs), factor);
    PairSum(ExpandAll(gs, Rows(gs), Columns(gs), factor))
  }

  /** Without expansion the answer is the plain pair sum. */
  lemma SolveFactorOne(gs: seq<Pos>)
    ensures Solve(gs, 1) == PairSum(gs)
  {
    assert ExpandAll(gs, Rows(gs), Columns(gs), 1) == gs;
  }

  /** `part1`: every empty row or column between two galaxies counts twice. */
  function Part1(gs: seq<Pos>): (r: nat)
    ensures r == PairSum(gs) + EmptyPairSum(gs, Rows(gs), Columns(gs))
  {
    Solve(gs, 2)
  }

  /** `part2`: every empty row or column between two galaxies counts a million times. */
  function Part2(gs: seq<Pos>): (r: nat)
    ensures r == PairSum(gs) + 999999 * EmptyPairSum(gs, Rows(gs), Columns(gs))
  {
    Solve(gs, 1000000)
  }

  /** What `part1` adds to the plain pair sum, `part2` adds 999999 times. */
  lemma Part2FromPart1(gs: seq<Pos>)
    ensures Part1(gs) >= PairSum(gs)
    ensures Part2(gs) - PairSum(gs) == 999999 * (Part1(gs) - PairSum(gs))
  {
  }
}
