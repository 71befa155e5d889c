/** Day 13, Point of Incidence: a pattern of ash and rock has a line of reflection between
    two columns or between two rows; the first one found is scored. */
module Day13 {
  import opened Wrappers

  datatype Tile = Ash | Rock

  /** `Tile::try_from`. */
  function ParseTile(c: char): (r: Result<Tile>)
    ensures r.Ok? <==> c == '.' || c == '#'
    ensures r.Ok? ==> (r.value == Ash <==> c == '.')
    ensures r.Err? ==> r.error == "Invalid tile: " + [c]
  {
    match c
    case '.' => Ok(Ash)
    case '#' => Ok(Rock)
    case _ => Err("Invalid tile: " + [c])
  }

  /** The tile map built by `parse`: row j holds the tiles of line j, so (j, i) is present
      exactly when line j has an i-th character. */
  function Get(rows: seq<seq<Tile>>, j: int, i: int): Option<Tile> {
    if 0 <= j < |rows| && 0 <= i < |rows[j]| then Some(rows[j][i]) else None
  }

  function Min(a: int, b: int): int {
    if a < b then a else b
  }

  /** Columns a and b agree on every row. */
  predicate ColumnsAgree(rows: seq<seq<Tile>>, height: nat, a: int, b: int) {
    forall j :: 0 <= j < height ==> Get(rows, j, a) == Get(rows, j, b)
  }

  /** Rows a and b agree on every column. */
  predicate RowsAgree(rows: seq<seq<Tile>>, width: nat, a: int, b: int) {
    forall i :: 0 <= i < width ==> Get(rows, a, i) == Get(rows, b, i)
  }

  /** The l-th pair of columns out from a vertical line at k: k - l - 1 and k + l. */
  predicate ColumnPair(rows: seq<seq<Tile>>, height: nat, k: int, l: int) {
    ColumnsAgree(rows, height, k - l - 1, k + l)
  }

  predicate RowPair(rows: seq<seq<Tile>>, width: nat, k: int, l: int) {
    RowsAgree(rows, width, k - l - 1, k + l)
  }

  /** Columns k - l - 1 and k + l agree on every row for every l below the reflection
      width. */
  predicate VerticalAt(rows: seq<seq<Tile>>, height: nat, width: nat, k: nat)
    requires k <= width
  {
    forall l :: 0 <= l < Min(k, width - k) ==> ColumnPair(rows, height, k, l)
  }

  predicate HorizontalAt(rows: seq<seq<Tile>>, height: nat, width: nat, k: nat)
    requires k <= height
  {
    forall l :: 0 <= l < Min(k, height - k) ==> RowPair(rows, width, k, l)
  }

  /** The compared columns never leave 0..width: k - l - 1 >= 0 and k + l < width. */
  lemma VerticalIndicesInRange(width: nat, k: nat, l: nat)
    requires 1 <= k < width && l < Min(k, width - k)
    ensures 0 <= k - l - 1 && k + l < width
  {
  }

  datatype Orientation = Vertical | Horizontal

  /** The first loop of `find_mirror`, from candidate `k` on. */
  function FindVertical(rows: seq<seq<Tile>>, height: nat, width: nat, k: nat): (r: Option<nat>)
    requires 1 <= k
    ensures r.Some? ==> k <= r.value < width && VerticalAt(rows, height, width, r.value)
    ensures r.Some? ==> forall k' :: k <= k' < r.value ==> !VerticalAt(rows, height, width, k')
    ensures r.None? ==> forall k' :: k <= k' < width ==> !VerticalAt(rows, height, width, k')
    decreases width - k
  {
    if k >= width then None
    else if VerticalAt(rows, height, width, k) then Some(k)
    else FindVertical(rows, height, width, k + 1)
  }

  function FindHorizontal(rows: seq<seq<Tile>>, height: nat, width: nat, k: nat): (r: Option<nat>)
    requires 1 <= k
    ensures r.Some? ==> k <= r.value < height && HorizontalAt(rows, height, width, r.value)
    ensures r.Some? ==> forall k' :: k <= k' < r.value ==> !HorizontalAt(rows, height, width, k')
    ensures r.None? ==> forall k' :: k <= k' < height ==> !HorizontalAt(rows, height, width, k')
    decreases height - k
  {
    if k >= height then None
    else if HorizontalAt(rows, height, width, k) then Some(k)
    else FindHorizontal(rows, height, width, k + 1)
  }

  /** `find_mirror`: the first vertical line k in 1..width, and only if there is none the
      first horizontal line k in 1..height. */
  function FindMirror(rows: seq<seq<Tile>>, height: nat, width: nat): (r: Option<(Orientation, nat)>)
    ensures r.Some? && r.value.0 == Vertical ==>
      1 <= r.value.1 < width && VerticalAt(rows, height, width, r.value.1) &&
      forall k :: 1 <= k < r.value.1 ==> !VerticalAt(rows, height, width, k)
    ensures r.Some? && r.value.0 == Horizontal ==>
      1 <= r.value.1 < height && HorizontalAt(rows, height, width, r.value.1) &&
      (forall k :: 1 <= k < width ==> !VerticalAt(rows, height, width, k)) &&
      forall k :: 1 <= k < r.value.1 ==> !HorizontalAt(rows, height, width, k)
    ensures r.None? <==>
      (forall k :: 1 <= k < width ==> !VerticalAt(rows, height, width, k)) &&
      (forall k :: 1 <= k < height ==> !HorizontalAt(rows, height, width, k))
  {
    match FindVertical(rows, height, width, 1)
    case Some(k) => Some((Vertical, k))
    case None =>
      match FindHorizontal(rows, height, width, 1)
      case Some(k) => Some((Horizontal, k))
      case None => None
  }

  /** A pattern's summary: k columns left of a vertical line, 100 k for k rows above a
      horizontal one. `part1` panics when there is no line, hence the precondition. */
  function Score(rows: seq<seq<Tile>>, height: nat, width: nat): (r: nat)
    requires FindMirror(rows, height, width).Some?
    ensures 1 <= r
    ensures r < width || (r % 100 == 0 && r / 100 < height)
  {
    var (o, k) := FindMirror(rows, height, width).value;
    if o == Vertical then k else k * 100
  }

  datatype Pattern = Pattern(height: nat, width: nat, rows: seq<seq<Tile>>)

  predicate HasMirror(p: Pattern) {
    FindMirror(p.rows, p.height, p.width).Some?
  }

  /** `part1`: the sum of the summaries, each at least 1. */
  function Part1(patterns: seq<Pattern>): (r: nat)
    requires forall k :: 0 <= k < |patterns| ==> HasMirror(patterns[k])
    ensures r >= |patterns|
  {
    if patterns == [] then 0
    else
      assert HasMirror(patterns[0]);
      Score(patterns[0].rows, patterns[0].height, patterns[0].width) + Part1(patterns[1..])
  }

  /** The summaries of two runs of patterns add up. */
  lemma {:induction false} Part1Append(a: seq<Pattern>, b: seq<Pattern>)
    requires forall k :: 0 <= k < |a| ==> HasMirror(a[k])
    requires forall k :: 0 <= k < |b| ==> HasMirror(b[k])
    ensures forall k :: 0 <= k < |a + b| ==> HasMirror((a + b)[k])
    ensures Part1(a + b) == Part1(a) + Part1(b)
  {
    if a == [] {
      assert a + b == b;
    } else {
      assert (a + b)[1..] == a[1..] + b;
      Part1Append(a[1..], b);
    }
  }

  /** The rows of a rectangular pattern read as columns. */
  function Transpose(rows: seq<seq<Tile>>, height: nat, width: nat): (t: seq<seq<Tile>>)
    requires |rows| == height && forall j :: 0 <= j < height ==> |rows[j]| == width
    ensures |t| == width && forall i :: 0 <= i < width ==> |t[i]| == height
  {
    seq(width, i requires 0 <= i < width => seq(height, j requires 0 <= j < height => rows[j][i]))
  }

  /** On a rectangular pattern, a horizontal line is a vertical line of the transposed
      pattern, so the second loop of `find_mirror` is the first one on the transpose. */
  lemma HorizontalIsTransposedVertical(rows: seq<seq<Tile>>, height: nat, width: nat, k: nat)
    requires |rows| == height && forall j :: 0 <= j < height ==> |rows[j]| == width
    requires k <= height
    ensures HorizontalAt(rows, height, width, k) <==> VerticalAt(Transpose(rows, height, width), width, height, k)
  {
    var t := Transpose(rows, height, width);
    forall a, b ensures RowsAgree(rows, width, a, b) <==> ColumnsAgree(t, width, a, b) {
      forall i | 0 <= i < width ensures Get(rows, a, i) == Get(t, i, a) && Get(rows, b, i) == Get(t, i, b) {
      }
    }
    assert forall l :: RowPair(rows, width, k, l) <==> ColumnPair(t, width, k, l);
  }

  /** `parse` for one pattern: height is the number of lines, width the length of the
      first, and every character must be a tile. */
  function ParsePattern(lines: seq<string>): (r: Result<Pattern>)
    ensures lines == [] ==> r == Err("Unexpected empty line")
    ensures r.Ok? <==> lines != [] && AllTiles(lines)
    ensures r.Ok? ==> r.value.height == |lines| && r.value.width == |lines[0]| && |r.value.rows| == |lines|
    ensures r.Ok? ==> forall j :: 0 <= j < |lines| ==> |r.value.rows[j]| == |lines[j]|
    ensures r.Ok? ==> forall j, i :: 0 <= j < |lines| && 0 <= i < |lines[j]| ==> ParseTile(lines[j][i]) == Ok(r.value.rows[j][i])
    ensures lines != [] && r.Err? ==> exists j, i :: 0 <= j < |lines| && 0 <= i < |lines[j]| && r.error == "Invalid tile: " + [lines[j][i]] && ParseTile(lines[j][i]).Err?
  {
    if lines == [] then Err("Unexpected empty line")
    else
      var rows :- ParseRows(lines);
      Ok(Pattern(|lines|, |lines[0]|, rows))
  }

  /** Every character of every line is a tile. */
  predicate AllTiles(lines: seq<string>) {
    forall j, i :: 0 <= j < |lines| && 0 <= i < |lines[j]| ==> ParseTile(lines[j][i]).Ok?
  }

  function ParseRows(lines: seq<string>): (r: Result<seq<seq<Tile>>>)
    ensures r.Ok? <==> AllTiles(lines)
    ensures r.Err? ==> exists j, i :: 0 <= j < |lines| && 0 <= i < |lines[j]| && r.error == "Invalid tile: " + [lines[j][i]] && ParseTile(lines[j][i]).Err?
    ensures r.Ok? ==> |r.value| == |lines| && forall j :: 0 <= j < |lines| ==> |r.value[j]| == |lines[j]|
    ensures r.Ok? ==> forall j, i :: 0 <= j < |lines| && 0 <= i < |lines[j]| ==> ParseTile(lines[j][i]) == Ok(r.value[j][i])
  {
    if lines == [] then Ok([])
    else
      var row :- ParseRow(lines[0]);
      var rest :- ParseRows(lines[1..]);
      Ok([row] + rest)
  }

  function ParseRow(line: string): (r: Result<seq<Tile>>)
    ensures r.Ok? <==> forall i :: 0 <= i < |line| ==> ParseTile(line[i]).Ok?
    ensures r.Ok? ==> |r.value| == |line| && forall i :: 0 <= i < |line| ==> ParseTile(line[i]) == Ok(r.value[i])
    ensures r.Err? ==> exists i :: 0 <= i < |line| && r.error == "Invalid tile: " + [line[i]] && ParseTile(line[i]).Err?
  {
    if line == [] then Ok([])
    else
      var t :- ParseTile(line[0]);
      var rest :- ParseRow(line[1..]);
      Ok([t] + rest)
  }
}
