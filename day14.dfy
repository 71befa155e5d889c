/** Day 14, Parabolic Reflector Dish: the platform is tilted north, so every round rock
    rolls up its column until it meets a rock or the northern edge; cube-shaped rocks stay
    put. The load is the sum, over round rocks, of their distance from the southern edge. */
module Day14 {
  import opened Wrappers
  import opened Grid

  datatype Rock = Cubed | Round

  /** `Rock::try_from`. */
  function ParseRock(c: char): (r: Result<Rock>)
    ensures r.Ok? <==> c == '#' || c == 'O'
    ensures r.Ok? ==> ShowRock(r.value) == c
    ensures r.Err? ==> r.error == "Invalid rock: " + [c]
  {
    match c
    case '#' => Ok(Cubed)
    case 'O' => Ok(Round)
    case _ => Err("Invalid rock: " + [c])
  }

  function ShowRock(r: Rock): char {
    match r
    case Cubed => '#'
    case Round => 'O'
  }

  lemma RockRoundTrip(r: Rock)
    ensures ParseRock(ShowRock(r)) == Ok(r)
  {
  }

  /** Rocks by 0-based (row, column); '.' cells have no entry. */
  type Platform = map<Pos, Rock>

  datatype Input = Input(height: nat, width: nat, rocks: Platform)

  predicate Valid(c: char) {
    c == '.' || c == '#' || c == 'O'
  }

  /** `parse`: the number of lines, the length of the first line, and the rock of every
      character other than '.'; the first invalid character in reading order is reported. */
  function Parse(lines: seq<string>): (r: Result<Input>)
    ensures |lines| == 0 ==> r == Err("Unexpected empty line")
    ensures r.Ok? <==> |lines| > 0 && forall j, i :: 0 <= j < |lines| && 0 <= i < |lines[j]| ==> Valid(lines[j][i])
    ensures r.Ok? ==> r.value.height == |lines| && r.value.width == |lines[0]|
    ensures r.Ok? ==> forall p :: p in r.value.rocks <==> 0 <= p.0 < |lines| && 0 <= p.1 < |lines[p.0]| && lines[p.0][p.1] != '.'
    ensures r.Ok? ==> forall p :: p in r.value.rocks ==> ShowRock(r.value.rocks[p]) == lines[p.0][p.1]
    ensures r.Err? && |lines| > 0 ==> exists j, i :: 0 <= j < |lines| && 0 <= i < |lines[j]| && !Valid(lines[j][i]) && r.error == "Invalid rock: " + [lines[j][i]]
  {
    if |lines| == 0 then Err("Unexpected empty line")
    else
      var rocks :- ParseRows(lines, 0);
      Ok(Input(|lines|, |lines[0]|, rocks))
  }

  function ParseRows(lines: seq<string>, j: nat): (r: Result<Platform>)
    requires j <= |lines|
    ensures r.Ok? <==> forall k, i :: j <= k < |lines| && 0 <= i < |lines[k]| ==> Valid(lines[k][i])
    ensures r.Ok? ==> forall p :: p in r.value <==> j <= p.0 < |lines| && 0 <= p.1 < |lines[p.0]| && lines[p.0][p.1] != '.'
    ensures r.Ok? ==> forall p :: p in r.value ==> ShowRock(r.value[p]) == lines[p.0][p.1]
    ensures r.Err? ==> exists k, i :: j <= k < |lines| && 0 <= i < |lines[k]| && !Valid(lines[k][i]) && r.error == "Invalid rock: " + [lines[k][i]]
    decreases |lines| - j
  {
    if j == |lines| then Ok(map[])
    else
      var row :- ParseRow(lines[j], j, 0);
      var rest :- ParseRows(lines, j + 1);
      Ok(row + rest)
  }

  function ParseRow(line: string, row: nat, i: nat): (r: Result<Platform>)
    requires i <= |line|
    ensures r.Ok? <==> forall k :: i <= k < |line| ==> Valid(line[k])
    ensures r.Ok? ==> forall p :: p in r.value <==> p.0 == row && i <= p.1 < |line| && line[p.1] != '.'
    ensures r.Ok? ==> forall p :: p in r.value ==> ShowRock(r.value[p]) == line[p.1]
    ensures r.Err? ==> exists k :: i <= k < |line| && !Valid(line[k]) && r.error == "Invalid rock: " + [line[k]]
    decreases |line| - i
  {
    if i == |line| then Ok(map[])
    else if line[i] == '.' then ParseRow(line, row, i + 1)
    else
      var rock :- ParseRock(line[i]);
      var rest :- ParseRow(line, row, i + 1);
      Ok(rest[(row, i) := rock])
  }

  /** The row where a round rock at (j, i) comes to rest: the `take_while` up the column
      over empty cells. It is the smallest row from which every cell up to row j - 1 is
      empty, and the cell above it is the edge or a rock. */
  function Stop(m: Platform, j: int, i: int): (r: int)
    requires j >= 0
    ensures 0 <= r <= j
    ensures forall c :: r <= c < j ==> (c, i) !in m
    ensures r == 0 || (r - 1, i) in m
    decreases j
  {
    if j > 0 && (j - 1, i) !in m then Stop(m, j - 1, i) else j
  }

  /** One iteration of the tilt: the rock at p moves to its resting row when that is above
      it. */
  function MoveRock(m: Platform, p: Pos): Platform
    requires p.0 >= 0
  {
    var j1 := Stop(m, p.0, p.1);
    if j1 < p.0 then (m - {p})[(j1, p.1) := Round] else m
  }

  predicate NonNegative(keys: seq<Pos>) {
    forall k :: 0 <= k < |keys| ==> keys[k].0 >= 0
  }

  /** The rocks at the listed positions moved one after the other. */
  function Roll(m: Platform, round: seq<Pos>): Platform
    requires NonNegative(round)
  {
    if round == [] then m
    else
      var k := |round| - 1;
      MoveRock(Roll(m, round[..k]), round[k])
  }

  /** The positions among keys that hold round rocks, in the same order. */
  function Rounds(m: Platform, keys: seq<Pos>): (r: seq<Pos>)
    ensures forall p :: p in r <==> p in keys && p in m && m[p] == Round
    ensures Ascending(keys) ==> Ascending(r)
  {
    if keys == [] then []
    else
      var rest := Rounds(m, keys[1..]);
      if keys[0] in m && m[keys[0]] == Round then
        assert Ascending(keys) ==> forall a :: 0 <= a < |rest| ==> Before(keys[0], rest[a]) by {
          if Ascending(keys) {
            forall a | 0 <= a < |rest| ensures Before(keys[0], rest[a]) {
              assert rest[a] in keys[1..];
            }
          }
        }
        [keys[0]] + rest
      else rest
  }

  /** The round rocks of column i. */
  function RoundsIn(m: Platform, i: int): set<Pos> {
    set p | p in m && m[p] == Round && p.1 == i
  }

  predicate CubedAt(m: Platform, p: Pos) {
    p in m && m[p] == Cubed
  }

  predicate RoundAt(m: Platform, p: Pos) {
    p in m && m[p] == Round
  }

  /** Every round rock lies on the northern edge or right below another rock. */
  ghost predicate Settled(m: Platform) {
    forall p :: RoundAt(m, p) ==> p.0 == 0 || (p.0 - 1, p.1) in m
  }

  /** Cube-shaped rocks stay where they are. */
  lemma KeepCubes(m: Platform, p: Pos)
    requires p.0 >= 0 && RoundAt(m, p)
    ensures forall r :: CubedAt(MoveRock(m, p), r) <==> CubedAt(m, r)
    ensures forall r :: r in MoveRock(m, p) && r !in m ==> 0 <= r.0 < p.0
  {
  }

  /** The rocks still to move stay where they are. */
  lemma KeepLater(m: Platform, round: seq<Pos>, k: nat)
    requires k < |round| && Ascending(round) && round[k].0 >= 0
    requires forall n :: k <= n < |round| ==> RoundAt(m, round[n])
    ensures forall n :: k + 1 <= n < |round| ==> RoundAt(MoveRock(m, round[k]), round[n])
  {
    var p := round[k];
    var j1 := Stop(m, p.0, p.1);
    forall n | k + 1 <= n < |round| ensures RoundAt(MoveRock(m, p), round[n]) {
      assert Before(p, round[n]);
      assert RoundAt(m, round[n]);
      assert round[n] != (j1, p.1) || j1 == p.0;
    }
  }

  /** The rocks already moved rest on the edge or on another rock, the moved one too. */
  lemma KeepSettled(m: Platform, round: seq<Pos>, k: nat)
    requires k < |round| && round[k].0 >= 0 && RoundAt(m, round[k])
    requires forall p :: RoundAt(m, p) && p !in round[k..] ==> p.0 == 0 || (p.0 - 1, p.1) in m
    requires forall p :: RoundAt(m, p) && p !in round[k..] ==> p.0 <= round[k].0
    ensures var m' := MoveRock(m, round[k]);
      forall r :: RoundAt(m', r) && r !in round[k + 1..] ==> r.0 == 0 || (r.0 - 1, r.1) in m'
  {
    var p := round[k];
    var j1 := Stop(m, p.0, p.1);
    var q := (j1, p.1);
    var m' := MoveRock(m, p);
    forall r | RoundAt(m', r) && r !in round[k + 1..]
      ensures r.0 == 0 || (r.0 - 1, r.1) in m'
    {
      if r != q && r != p {
        assert r in m && r !in round[k..];
      }
    }
  }

  /** The rocks already moved lie no lower than the next rock to move. */
  lemma KeepRows(m: Platform, round: seq<Pos>, k: nat)
    requires k < |round| && Ascending(round) && round[k].0 >= 0
    requires forall p :: RoundAt(m, p) && p !in round[k..] ==> p.0 <= round[k].0
    ensures var m' := MoveRock(m, round[k]);
      forall r :: RoundAt(m', r) && r !in round[k + 1..] && k + 1 < |round| ==> r.0 <= round[k + 1].0
  {
    var p := round[k];
    var m' := MoveRock(m, p);
    forall r | RoundAt(m', r) && r !in round[k + 1..] && k + 1 < |round|
      ensures r.0 <= round[k + 1].0
    {
      assert Before(p, round[k + 1]);
      if r != p && r in m {
        assert r !in round[k..];
      }
    }
  }

  /** Each column keeps its number of round rocks. */
  lemma KeepCounts(rocks: Platform, m: Platform, p: Pos)
    requires p.0 >= 0 && RoundAt(m, p)
    requires forall i :: |RoundsIn(m, i)| == |RoundsIn(rocks, i)|
    ensures forall i :: |RoundsIn(MoveRock(m, p), i)| == |RoundsIn(rocks, i)|
  {
    var j1 := Stop(m, p.0, p.1);
    var q := (j1, p.1);
    var m' := MoveRock(m, p);
    forall c ensures |RoundsIn(m', c)| == |RoundsIn(m, c)| {
      if j1 < p.0 {
        assert q !in m;
        if c == p.1 {
          assert RoundsIn(m', c) == RoundsIn(m, c) - {p} + {q};
        } else {
          assert RoundsIn(m', c) == RoundsIn(m, c);
        }
      }
    }
  }

  /** The loop of `part1` over the round rocks in row-major order. */
  method Tilt(rocks: Platform, round: seq<Pos>) returns (tilted: Platform)
    requires Ascending(round) && forall p :: p in round <==> RoundAt(rocks, p)
    requires forall p :: p in rocks ==> p.0 >= 0
    ensures NonNegative(round) && tilted == Roll(rocks, round)
    ensures Settled(tilted)
    ensures forall p :: CubedAt(tilted, p) <==> CubedAt(rocks, p)
    ensures forall i :: |RoundsIn(tilted, i)| == |RoundsIn(rocks, i)|
    ensures forall height :: Load(tilted, height) >= Load(rocks, height)
  {
    assert forall n :: 0 <= n < |round| ==> RoundAt(rocks, round[n]) && round[n].0 >= 0 by {
      forall n | 0 <= n < |round| ensures RoundAt(rocks, round[n]) && round[n].0 >= 0 {
        assert round[n] in round;
      }
    }
    tilted := rocks;
    assert round[..0] == [];
    for k := 0 to |round|
      invariant tilted == Roll(rocks, round[..k])
      invariant SettledBefore(tilted, round, k) && RowsBefore(tilted, round, k)
    {
      TiltStep(rocks, round, k, tilted);
      tilted := Slide(tilted, round[k]);
    }
    assert round[..|round|] == round;
    RollKeeps(rocks, round, |round|);
  }

  /** The rocks already moved rest on the edge or on another rock. */
  ghost predicate SettledBefore(m: Platform, round: seq<Pos>, k: nat)
    requires k <= |round|
  {
    forall p :: RoundAt(m, p) && p !in round[k..] ==> p.0 == 0 || (p.0 - 1, p.1) in m
  }

  /** The rocks already moved lie no lower than the next rock to move. */
  ghost predicate RowsBefore(m: Platform, round: seq<Pos>, k: nat)
    requires k <= |round|
  {
    k < |round| ==> forall p :: RoundAt(m, p) && p !in round[k..] ==> p.0 <= round[k].0
  }

  /** One pass of the tilt loop keeps both invariants. */
  lemma TiltStep(rocks: Platform, round: seq<Pos>, k: nat, m: Platform)
    requires Ascending(round) && NonNegative(round) && k < |round|
    requires forall n :: 0 <= n < |round| ==> RoundAt(rocks, round[n])
    requires forall p :: p in rocks ==> p.0 >= 0
    requires m == Roll(rocks, round[..k])
    requires SettledBefore(m, round, k) && RowsBefore(m, round, k)
    ensures MoveRock(m, round[k]) == Roll(rocks, round[..k + 1])
    ensures SettledBefore(MoveRock(m, round[k]), round, k + 1)
    ensures RowsBefore(MoveRock(m, round[k]), round, k + 1)
  {
    assert round[..k + 1][..k] == round[..k];
    RollLater(rocks, round, k);
    RollRows(rocks, round, k);
    KeepSettled(m, round, k);
    KeepRows(m, round, k);
  }

  /** The body of the tilt loop: when the cell above is empty, the rock is removed from
      (j, i) and a round rock inserted at its resting row. */
  method Slide(m: Platform, p: Pos) returns (m': Platform)
    requires p.0 >= 0
    ensures m' == MoveRock(m, p)
  {
    var (j, i) := p;
    m' := m;
    var candidate := Stop(m, j, i);
    if candidate < j {
      m' := m' - {(j, i)};
      m' := m'[(candidate, i) := Round];
    }
  }

  /** While the tilt runs, the rocks still to move stay in place. */
  lemma {:induction false} RollLater(rocks: Platform, round: seq<Pos>, k: nat)
    requires Ascending(round) && NonNegative(round) && k <= |round|
    requires forall n :: 0 <= n < |round| ==> RoundAt(rocks, round[n])
    ensures forall n :: k <= n < |round| ==> RoundAt(Roll(rocks, round[..k]), round[n])
  {
    if k > 0 {
      RollLater(rocks, round, k - 1);
      var m := Roll(rocks, round[..k - 1]);
      assert round[..k][..k - 1] == round[..k - 1];
      KeepLater(m, round, k - 1);
    }
  }

  /** No rock leaves the rows from 0 down. */
  lemma {:induction false} RollRows(rocks: Platform, round: seq<Pos>, k: nat)
    requires Ascending(round) && NonNegative(round) && k <= |round|
    requires forall n :: 0 <= n < |round| ==> RoundAt(rocks, round[n])
    requires forall p :: p in rocks ==> p.0 >= 0
    ensures forall p :: p in Roll(rocks, round[..k]) ==> p.0 >= 0
  {
    if k > 0 {
      RollRows(rocks, round, k - 1);
      RollLater(rocks, round, k - 1);
      var m := Roll(rocks, round[..k - 1]);
      assert round[..k][..k - 1] == round[..k - 1];
      assert Roll(rocks, round[..k]) == MoveRock(m, round[k - 1]);
      KeepCubes(m, round[k - 1]);
    }
  }

  /** The tilt keeps the cube-shaped rocks, the number of round rocks of every column, and
      never lowers the load. */
  lemma {:induction false} RollKeeps(rocks: Platform, round: seq<Pos>, k: nat)
    requires Ascending(round) && NonNegative(round) && k <= |round|
    requires forall n :: 0 <= n < |round| ==> RoundAt(rocks, round[n])
    ensures forall p :: CubedAt(Roll(rocks, round[..k]), p) <==> CubedAt(rocks, p)
    ensures forall i :: |RoundsIn(Roll(rocks, round[..k]), i)| == |RoundsIn(rocks, i)|
    ensures forall height :: Load(Roll(rocks, round[..k]), height) >= Load(rocks, height)
  {
    if k > 0 {
      RollKeeps(rocks, round, k - 1);
      RollLater(rocks, round, k - 1);
      var m := Roll(rocks, round[..k - 1]);
      assert round[..k][..k - 1] == round[..k - 1];
      assert Roll(rocks, round[..k]) == MoveRock(m, round[k - 1]);
      KeepCounts(rocks, m, round[k - 1]);
      KeepCubes(m, round[k - 1]);
      MoveLoad(m, round[k - 1]);
    } else {
      assert round[..0] == [];
    }
  }

  function Weight(m: Platform, p: Pos, height: int): int
    requires p in m
  {
    if m[p] == Round then height - p.0 else 0
  }

  /** The load: height - row summed over the round rocks. */
  ghost function Load(m: Platform, height: int): int
    decreases |m|
  {
    if m == map[] then 0
    else
      var p :| p in m;
      Weight(m, p, height) + Load(m - {p}, height)
  }

  /** The load does not depend on which rock is counted first. */
  lemma {:induction false} LoadRemove(m: Platform, p: Pos, height: int)
    requires p in m
    ensures Load(m, height) == Weight(m, p, height) + Load(m - {p}, height)
    decreases |m|
  {
    var q :| q in m && Load(m, height) == Weight(m, q, height) + Load(m - {q}, height);
    if q != p {
      var mq, mp := m - {q}, m - {p};
      assert |mq| < |m| && |mp| < |m| by {
        assert mq.Keys == m.Keys - {q} && mp.Keys == m.Keys - {p};
      }
      LoadRemove(mq, p, height);
      LoadRemove(mp, q, height);
      assert mq - {p} == mp - {q};
      assert Weight(mq, p, height) == Weight(m, p, height);
      assert Weight(mp, q, height) == Weight(m, q, height);
    }
  }

  /** Moving a round rock north raises the load. */
  lemma MoveLoad(m: Platform, p: Pos)
    requires RoundAt(m, p) && p.0 >= 0
    ensures forall height :: Load(MoveRock(m, p), height) >= Load(m, height)
  {
    var j1 := Stop(m, p.0, p.1);
    if j1 < p.0 {
      var q := (j1, p.1);
      var m' := MoveRock(m, p);
      forall height ensures Load(m', height) >= Load(m, height) {
        LoadRemove(m, p, height);
        LoadRemove(m', q, height);
        assert m' - {q} == m - {p};
      }
    }
  }

  /** The final sum of `part1`, over the rocks in any order. */
  method TotalLoad(m: Platform, height: int) returns (load: int)
    ensures load == Load(m, height)
  {
    load := 0;
    var rest := m;
    while rest != map[]
      invariant load + Load(rest, height) == Load(m, height)
      decreases |rest|
    {
      var p :| p in rest;
      LoadRemove(rest, p, height);
      if rest[p] == Round {
        load := load + (height - p.0);
      }
      rest := rest - {p};
    }
  }

  /** `part1`: tilts north, moving the round rocks in row-major order, and sums the load. */
  method Part1(input: Input) returns (load: int)
    requires forall p :: p in input.rocks ==> p.0 >= 0
    ensures var round := Rounds(input.rocks, Listing(input.rocks.Keys));
      NonNegative(round) && load == Load(Roll(input.rocks, round), input.height)
    ensures load >= Load(input.rocks, input.height)
  {
    var keys := SortedKeys(input.rocks.Keys);
    var round := Rounds(input.rocks, keys);
    var tilted := Tilt(input.rocks, round);
    load := TotalLoad(tilted, input.height);
  }
}
