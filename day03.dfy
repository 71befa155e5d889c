/** Day 3, Gear Ratios: an engine schematic holds numbers and symbols; a part number is a
    maximal horizontal run of digits with a symbol among the eight neighbours of one of its
    digits, and the answer is the sum of the part numbers. */
module Day03 {
  import opened Wrappers
  import opened Grid
  import Text

  datatype Tile = Digit(d: nat) | Symbol(c: char)

  /** `Tile::try_from`: '.' is no tile, a decimal digit is a Digit, anything else a Symbol. */
  function ParseTile(c: char): (r: Result<Tile>)
    ensures r.Err? <==> c == '.'
    ensures r.Err? ==> r.error == "No such tile: ."
    ensures r.Ok? ==> ShowTile(r.value) == c && (r.value.Digit? <==> Text.IsDigit(c))
  {
    if c == '.' then Err("No such tile: " + [c])
    else if Text.IsDigit(c) then Ok(Digit(Text.DigitValue(c)))
    else Ok(Symbol(c))
  }

  /** The character a tile is read from. */
  function ShowTile(t: Tile): char {
    match t
    case Digit(d) => if d < 10 then Text.DigitChar(d) else '?'
    case Symbol(c) => c
  }

  /** Every tile that can be written as a character is read back from it. */
  predicate Writable(t: Tile) {
    match t
    case Digit(d) => d < 10
    case Symbol(c) => c != '.' && !Text.IsDigit(c)
  }

  lemma TileRoundTrip(t: Tile)
    requires Writable(t)
    ensures ParseTile(ShowTile(t)) == Ok(t)
  {
  }

  /** Tiles by 0-based (row, column); '.' cells have no entry. */
  type Schematic = map<Pos, Tile>


  /** `parse`: every character other than '.' becomes the tile it reads as. */
  method Parse(lines: seq<string>) returns (schematic: Schematic)
    ensures forall p :: p in schematic <==> InText(lines, p) && lines[p.0][p.1] != '.'
    ensures forall p :: p in schematic ==> InText(lines, p) && ParseTile(lines[p.0][p.1]) == Ok(schematic[p])
  {
    schematic := map[];
    for j := 0 to |lines|
      invariant forall p :: p in schematic <==> InText(lines, p) && p.0 < j && lines[p.0][p.1] != '.'
      invariant forall p :: p in schematic ==> InText(lines, p) && ParseTile(lines[p.0][p.1]) == Ok(schematic[p])
    {
      var line := lines[j];
      for i := 0 to |line|
        invariant forall p :: p in schematic <==> InText(lines, p) && (p.0 < j || (p.0 == j && p.1 < i)) && lines[p.0][p.1] != '.'
        invariant forall p :: p in schematic ==> InText(lines, p) && ParseTile(lines[p.0][p.1]) == Ok(schematic[p])
      {
        var tile := ParseTile(line[i]);
        if tile.Ok? {
          schematic := schematic[(j, i) := tile.value];
        }
      }
    }
  }

  function Left(p: Pos): Pos {
    (p.0, p.1 - 1)
  }

  function Right(p: Pos): Pos {
    (p.0, p.1 + 1)
  }

  /** In the row-major listing, the position just before p is its left neighbour exactly
      when that neighbour is in the schematic: the scan's runs are the schematic's rows. */
  lemma LeftInKeys(keys: seq<Pos>, s: set<Pos>, k: nat)
    requires RowMajor(keys, s) && k < |keys|
    ensures Left(keys[k]) in s <==> k > 0 && keys[k - 1] == Left(keys[k])
  {
    if Left(keys[k]) in s {
      var m :| 0 <= m < |keys| && keys[m] == Left(keys[k]);
    }
  }

  predicate DigitAt(s: Schematic, p: Pos) {
    p in s && s[p].Digit?
  }

  predicate SymbolAt(s: Schematic, p: Pos) {
    p in s && s[p].Symbol?
  }

  /** One of the eight positions around p holds a symbol. */
  ghost predicate Touches(s: Schematic, p: Pos) {
    exists q :: Adjacent(p, q) && SymbolAt(s, q)
  }

  /** keys[k] is a digit continuing the run of digits ending at keys[k - 1]. */
  predicate Continues(s: Schematic, keys: seq<Pos>, k: nat)
    requires k < |keys|
  {
    k > 0 && keys[k - 1] == Left(keys[k]) && DigitAt(s, keys[k - 1]) && DigitAt(s, keys[k])
  }

  /** The value of the run of digits ending at keys[k], read as a decimal number. */
  function RunValue(s: Schematic, keys: seq<Pos>, k: nat): nat
    requires k < |keys| && DigitAt(s, keys[k])
  {
    (if Continues(s, keys, k) then RunValue(s, keys, k - 1) * 10 else 0) + s[keys[k]].d
  }

  /** Some digit of the run ending at keys[k] has a symbol around it. */
  ghost predicate RunTouches(s: Schematic, keys: seq<Pos>, k: nat)
    requires k < |keys| && DigitAt(s, keys[k])
  {
    Touches(s, keys[k]) || (Continues(s, keys, k) && RunTouches(s, keys, k - 1))
  }

  /** The index where the run of digits ending at keys[k] starts. */
  function RunStart(s: Schematic, keys: seq<Pos>, k: nat): (r: nat)
    requires k < |keys| && DigitAt(s, keys[k])
    ensures r <= k
  {
    if Continues(s, keys, k) then RunStart(s, keys, k - 1) else k
  }

  /** keys[k] is the last digit of its run. */
  predicate RunEnd(s: Schematic, keys: seq<Pos>, k: nat)
    requires k < |keys|
  {
    DigitAt(s, keys[k]) && !(k + 1 < |keys| && Continues(s, keys, k + 1))
  }

  /** The sum of the part numbers whose runs end before index n. */
  ghost function PartSum(s: Schematic, keys: seq<Pos>, n: nat): nat
    requires n <= |keys|
  {
    if n == 0 then 0
    else
      var k := n - 1;
      PartSum(s, keys, k) + (if RunEnd(s, keys, k) && RunTouches(s, keys, k) then RunValue(s, keys, k) else 0)
  }

  /** A run is a stretch of horizontally consecutive digits. */
  lemma {:induction false} RunSpan(s: Schematic, keys: seq<Pos>, k: nat, m: nat)
    requires k < |keys| && DigitAt(s, keys[k]) && RunStart(s, keys, k) <= m <= k
    ensures DigitAt(s, keys[m]) && keys[m] == (keys[k].0, keys[k].1 - (k - m))
    decreases k
  {
    if m < k {
      RunSpan(s, keys, k - 1, m);
    }
  }

  /** In row-major order a run cannot be extended: the cell left of its first digit and,
      at a run end, the cell right of its last digit are no digits. */
  lemma {:induction false} RunMaximal(s: Schematic, keys: seq<Pos>, k: nat)
    requires RowMajor(keys, s.Keys) && k < |keys| && DigitAt(s, keys[k])
    ensures !DigitAt(s, Left(keys[RunStart(s, keys, k)]))
    ensures RunEnd(s, keys, k) ==> !DigitAt(s, Right(keys[k]))
    decreases k
  {
    if Continues(s, keys, k) {
      RunMaximal(s, keys, k - 1);
    } else {
      LeftInKeys(keys, s.Keys, k);
    }
    if RunEnd(s, keys, k) && DigitAt(s, Right(keys[k])) {
      var m :| 0 <= m < |keys| && keys[m] == Right(keys[k]);
      assert Left(keys[m]) == keys[k];
      LeftInKeys(keys, s.Keys, m);
    }
  }

  /** A run counts exactly when one of its digits has a symbol around it. */
  lemma {:induction false} RunTouchesSome(s: Schematic, keys: seq<Pos>, k: nat)
    requires k < |keys| && DigitAt(s, keys[k])
    ensures RunTouches(s, keys, k) <==> exists m :: RunStart(s, keys, k) <= m <= k && Touches(s, keys[m])
    decreases k
  {
    if Continues(s, keys, k) {
      RunTouchesSome(s, keys, k - 1);
    }
  }

  /** Without symbols there are no part numbers. */
  lemma {:induction false} NoSymbols(s: Schematic, keys: seq<Pos>, n: nat)
    requires n <= |keys| && forall p :: p in s ==> s[p].Digit?
    ensures PartSum(s, keys, n) == 0
  {
    if n > 0 {
      NoSymbols(s, keys, n - 1);
      var k := n - 1;
      if RunEnd(s, keys, k) {
        NoTouch(s, keys, k);
      }
    }
  }

  lemma {:induction false} NoTouch(s: Schematic, keys: seq<Pos>, k: nat)
    requires k < |keys| && DigitAt(s, keys[k]) && forall p :: p in s ==> s[p].Digit?
    ensures !RunTouches(s, keys, k)
    decreases k
  {
    if Continues(s, keys, k) {
      NoTouch(s, keys, k - 1);
    }
  }

  /** The sum of all part numbers of the schematic, its runs taken in row-major order. */
  ghost function PartNumbers(s: Schematic): nat {
    var keys := Listing(s.Keys);
    PartSum(s, keys, |keys|)
  }

  /** The value of the run pending before index k: the run ending at keys[k - 1], if any. */
  function Pending(s: Schematic, keys: seq<Pos>, k: nat): nat
    requires k <= |keys|
  {
    if k > 0 && DigitAt(s, keys[k - 1]) then RunValue(s, keys, k - 1) else 0
  }

  ghost predicate PendingTouches(s: Schematic, keys: seq<Pos>, k: nat)
    requires k <= |keys|
  {
    k > 0 && DigitAt(s, keys[k - 1]) && RunTouches(s, keys, k - 1)
  }

  /** `part1`: scans the tiles in row-major order, accumulating the digits of the current
      run and whether one of them touches a symbol, and adds the run's number when the run
      ends. */
  method Part1(schematic: Schematic) returns (sum: nat)
    ensures sum == PartNumbers(schematic)
  {
    var keys := SortedKeys(schematic.Keys);
    sum := Scan(schematic, keys);
  }

  /** The loop of `part1` over the positions in the given order. */
  method Scan(schematic: Schematic, keys: seq<Pos>) returns (sum: nat)
    requires forall k :: 0 <= k < |keys| ==> keys[k] in schematic
    ensures sum == PartSum(schematic, keys, |keys|)
  {
    sum := 0;
    var previous: Pos := (0, 0);
    var number: nat := 0;
    var adjacent := false;
    for k := 0 to |keys|
      invariant previous == if k == 0 then (0, 0) else keys[k - 1]
      invariant sum == PartSum(schematic, keys, if k == 0 then 0 else k - 1)
      invariant number == Pending(schematic, keys, k)
      invariant adjacent == PendingTouches(schematic, keys, k)
    {
      var (j, i) := keys[k];
      assert keys[k] in schematic;
      ghost var counted := PartSum(schematic, keys, k);
      if k > 0 && !Continues(schematic, keys, k) {
        RunEnds(schematic, keys, k);
      }
      if Continues(schematic, keys, k) {
        RunGoesOn(schematic, keys, k);
      } else if DigitAt(schematic, keys[k]) {
        RunStarts(schematic, keys, k);
      } else {
        NoRun(schematic, keys, k);
      }
      if previous != (j, i - 1) {
        if adjacent {
          sum := sum + number;
        }
        number := 0;
        adjacent := false;
      }
      match schematic[(j, i)] {
        case Digit(d) =>
          number := number * 10 + d;
          adjacent := Neighbours(schematic, (j, i), adjacent);
        case Symbol(_) =>
          if adjacent {
            sum := sum + number;
          }
          number := 0;
          adjacent := false;
      }
      previous := (j, i);
    }
    if keys != [] {
      RunEnds(schematic, keys, |keys|);
    }
    if adjacent {
      sum := sum + number;
    }
  }

  /** The run pending before index k ends there: it counts now if it touches a symbol. */
  lemma RunEnds(s: Schematic, keys: seq<Pos>, k: nat)
    requires 0 < k <= |keys| && (k < |keys| ==> !Continues(s, keys, k))
    ensures PartSum(s, keys, k) == PartSum(s, keys, k - 1) + (if PendingTouches(s, keys, k) then Pending(s, keys, k) else 0)
  {
  }

  /** keys[k] extends the pending run by one digit. */
  lemma RunGoesOn(s: Schematic, keys: seq<Pos>, k: nat)
    requires k < |keys| && Continues(s, keys, k)
    ensures PartSum(s, keys, k) == PartSum(s, keys, k - 1)
    ensures Pending(s, keys, k + 1) == Pending(s, keys, k) * 10 + s[keys[k]].d
    ensures PendingTouches(s, keys, k + 1) <==> PendingTouches(s, keys, k) || Touches(s, keys[k])
  {
  }

  /** keys[k] is the first digit of a run. */
  lemma RunStarts(s: Schematic, keys: seq<Pos>, k: nat)
    requires k < |keys| && DigitAt(s, keys[k]) && !Continues(s, keys, k)
    ensures Pending(s, keys, k + 1) == s[keys[k]].d
    ensures PendingTouches(s, keys, k + 1) <==> Touches(s, keys[k])
  {
  }

  /** keys[k] is a symbol: nothing is pending after it. */
  lemma NoRun(s: Schematic, keys: seq<Pos>, k: nat)
    requires k < |keys| && !DigitAt(s, keys[k])
    ensures Pending(s, keys, k + 1) == 0 && !PendingTouches(s, keys, k + 1)
  {
  }

  /** The loop over the eight neighbours: sets the flag when one of them is a symbol. */
  method Neighbours(schematic: Schematic, p: Pos, adjacent: bool) returns (r: bool)
    ensures r <==> adjacent || Touches(schematic, p)
  {
    r := adjacent;
    var around := Around(p);
    for n := 0 to |around|
      invariant r <==> adjacent || exists m :: 0 <= m < n && SymbolAt(schematic, around[m])
    {
      if SymbolAt(schematic, around[n]) {
        r := true;
      }
    }
    if Touches(schematic, p) {
      var q :| Adjacent(p, q) && SymbolAt(schematic, q);
      AroundComplete(p, q);
      var m :| 0 <= m < |around| && around[m] == q;
    }
  }
}
