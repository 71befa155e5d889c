/** Sand slabs: bricks of unit cubes fall until they rest on the ground (z = 1) or on an
    earlier brick, and a brick may be taken away when every brick it holds up also rests
    on another. */
module Day22 {
  import opened Wrappers
  import opened Text
  import opened Sorting

  // ---------------------------------------------------------------------------------
  // Cubes and bricks
  // ---------------------------------------------------------------------------------

  datatype Cube = Cube(x: nat, y: nat, z: nat) {
    /** One step down; `z - 1` on a `usize` needs `z >= 1`. */
    function Lower(): Cube
      requires z >= 1
    {
      Cube(x, y, z - 1)
    }

    function Raise(): Cube {
      Cube(x, y, z + 1)
    }
  }

  /** The cubes of a brick and the height of its lowest cube. */
  datatype Brick = Brick(cubes: seq<Cube>, level: nat) {
    /** Every subtraction in `lower` stays within `usize`. */
    predicate Lowerable() {
      level >= 1 && forall k :: 0 <= k < |cubes| ==> cubes[k].z >= 1
    }

    /** Every cube one step down and the level one less; nothing else moves. */
    function Lower(): (r: Brick)
      requires Lowerable()
      ensures |r.cubes| == |cubes| && r.level == level - 1
      ensures forall k :: 0 <= k < |cubes| ==>
        r.cubes[k].x == cubes[k].x && r.cubes[k].y == cubes[k].y && r.cubes[k].z == cubes[k].z - 1
    {
      Brick(seq(|cubes|, k requires 0 <= k < |cubes| => cubes[k].Lower()), level - 1)
    }

    /** Every cube one step up and the level one more; nothing else moves. */
    function Raise(): (r: Brick)
      ensures |r.cubes| == |cubes| && r.level == level + 1
      ensures forall k :: 0 <= k < |cubes| ==>
        r.cubes[k].x == cubes[k].x && r.cubes[k].y == cubes[k].y && r.cubes[k].z == cubes[k].z + 1
    {
      Brick(seq(|cubes|, k requires 0 <= k < |cubes| => cubes[k].Raise()), level + 1)
    }
  }

  /** Raising a brick undoes lowering it, and lowering undoes raising. */
  lemma RaiseLower(b: Brick)
    requires b.Lowerable()
    ensures b.Lower().Raise() == b
  {
    assert b.Lower().Raise().cubes == b.cubes;
  }

  lemma LowerRaise(b: Brick)
    ensures b.Raise().Lowerable() && b.Raise().Lower() == b
  {
    assert b.Raise().Lower().cubes == b.cubes;
  }

  /** Above the ground, with its level no higher than any of its cubes: what a parsed
      brick with both z coordinates at least 1 satisfies. */
  predicate Resting(b: Brick) {
    b.level >= 1 && forall k :: 0 <= k < |b.cubes| ==> b.cubes[k].z >= b.level
  }

  // ---------------------------------------------------------------------------------
  // Parsing a brick
  // ---------------------------------------------------------------------------------

  /** The order `sort_by_key` puts cubes in: by z, then y, then x. */
  predicate CubeLe(a: Cube, b: Cube) {
    a.z < b.z || (a.z == b.z && (a.y < b.y || (a.y == b.y && a.x <= b.x)))
  }

  lemma CubeOrder()
    ensures Total(CubeLe) && Transitive(CubeLe)
  {
  }

  /** Strictly increasing in the (z, y, x) order. */
  predicate Ascending(s: seq<Cube>) {
    forall i, j :: 0 <= i < j < |s| ==> CubeLe(s[i], s[j]) && s[i] != s[j]
  }

  predicate Distinct(s: seq<Cube>) {
    forall i, j :: 0 <= i < j < |s| ==> s[i] != s[j]
  }

  function Min(a: nat, b: nat): nat {
    if a <= b then a else b
  }

  function Max(a: nat, b: nat): nat {
    if a <= b then b else a
  }

  /** The cube lies between the two corners `n[0..3]` and `n[3..6]`, bounds included. */
  predicate InBox(c: Cube, n: seq<nat>)
    requires |n| == 6
  {
    Min(n[0], n[3]) <= c.x <= Max(n[0], n[3]) &&
    Min(n[1], n[4]) <= c.y <= Max(n[1], n[4]) &&
    Min(n[2], n[5]) <= c.z <= Max(n[2], n[5])
  }

  /** `split(&[',', '~'])` cuts at either character: the same pieces as cutting at commas
      once every '~' is read as a comma. */
  function Unify(s: string): string {
    seq(|s|, k requires 0 <= k < |s| => if s[k] == '~' then ',' else s[k])
  }

  /** The six coordinates of a line, when every piece is a number and there are six. */
  function Corners(s: string): Option<seq<nat>> {
    var numbers := ParseNats(Split(Unify(s), ','));
    if numbers.Ok? && |numbers.value| == 6 then Some(numbers.value) else None
  }

  /** The brick of the corners: every cube of the box exactly once, in (z, y, x) order,
      with the smaller z as its level. */
  ghost predicate Boxed(b: Brick, n: seq<nat>)
    requires |n| == 6
  {
    b.level == Min(n[2], n[5]) && Ascending(b.cubes) &&
    (forall k :: 0 <= k < |b.cubes| ==> InBox(b.cubes[k], n)) &&
    (forall c :: InBox(c, n) ==> c in b.cubes)
  }

  /** Two positions holding the same value make it occur twice. */
  lemma Twice(s: seq<Cube>, i: nat, j: nat)
    requires i < j < |s| && s[i] == s[j]
    ensures multiset(s)[s[i]] >= 2
  {
    assert s == s[..j] + [s[j]] + s[j + 1..];
    assert s[i] in s[..j];
  }

  lemma {:induction false} DistinctOnce(s: seq<Cube>, c: Cube)
    requires Distinct(s)
    ensures multiset(s)[c] <= 1
  {
    if s != [] {
      var rest := s[..|s| - 1];
      assert s == rest + [s[|s| - 1]];
      DistinctOnce(rest, c);
      if c == s[|s| - 1] {
        assert c !in rest;
      }
    }
  }

  /** The triple loop of `Brick::from_str`: every cube of the box, x by x, y by y, z by
      z, each once. */
  method FillBox(n: seq<nat>) returns (cubes: seq<Cube>)
    requires |n| == 6
    ensures Distinct(cubes)
    ensures forall k :: 0 <= k < |cubes| ==> InBox(cubes[k], n)
    ensures forall c :: InBox(c, n) ==> c in cubes
  {
    cubes := [];
    for x := Min(n[0], n[3]) to Max(n[0], n[3]) + 1
      invariant Distinct(cubes)
      invariant forall k :: 0 <= k < |cubes| ==> InBox(cubes[k], n)
      invariant forall c :: InBox(c, n) && c.x < x ==> c in cubes
      invariant forall c :: c in cubes ==> c.x < x
    {
      for y := Min(n[1], n[4]) to Max(n[1], n[4]) + 1
        invariant Distinct(cubes)
        invariant forall k :: 0 <= k < |cubes| ==> InBox(cubes[k], n)
        invariant forall c :: InBox(c, n) && (c.x < x || (c.x == x && c.y < y)) ==> c in cubes
        invariant forall c :: c in cubes ==> c.x < x || (c.x == x && c.y < y)
      {
        for z := Min(n[2], n[5]) to Max(n[2], n[5]) + 1
          invariant Distinct(cubes)
          invariant forall k :: 0 <= k < |cubes| ==> InBox(cubes[k], n)
          invariant forall c :: InBox(c, n) && (c.x < x || (c.x == x && (c.y < y || (c.y == y && c.z < z)))) ==> c in cubes
          invariant forall c :: c in cubes ==> c.x < x || (c.x == x && (c.y < y || (c.y == y && c.z < z)))
        {
          cubes := cubes + [Cube(x, y, z)];
        }
      }
    }
  }

  /** Sorting the cubes of a box by (z, y, x) keeps each of them once. */
  lemma SortedBox(cubes: seq<Cube>, n: seq<nat>)
    requires |n| == 6 && Distinct(cubes)
    requires forall k :: 0 <= k < |cubes| ==> InBox(cubes[k], n)
    requires forall c :: InBox(c, n) ==> c in cubes
    ensures Boxed(Brick(SortBy(cubes, CubeLe), Min(n[2], n[5])), n)
  {
    var sorted := SortBy(cubes, CubeLe);
    CubeOrder();
    SortBySorted(cubes, CubeLe);
    forall i, j | 0 <= i < j < |sorted|
      ensures sorted[i] != sorted[j]
    {
      if sorted[i] == sorted[j] {
        Twice(sorted, i, j);
        DistinctOnce(cubes, sorted[i]);
        assert false;
      }
    }
    forall k | 0 <= k < |sorted|
      ensures InBox(sorted[k], n)
    {
      assert sorted[k] in multiset(cubes);
    }
    forall c | InBox(c, n)
      ensures c in sorted
    {
      assert c in multiset(sorted);
    }
  }

  /** `Brick::from_str`: the six numbers, the box filled x by x, y by y, z by z, and the
      cubes then sorted by (z, y, x). Any piece that is not a number, or a count other than
      six, is an error naming the line. */
  method ParseBrick(s: string) returns (r: Result<Brick>)
    ensures r.Ok? <==> Corners(s).Some?
    ensures r.Err? ==> r.error == "Invalid brick: " + s
    ensures r.Ok? ==> Boxed(r.value, Corners(s).value)
  {
    var numbers := ParseNats(Split(Unify(s), ','));
    if numbers.Err? || |numbers.value| != 6 {
      return Err("Invalid brick: " + s);
    }
    var n := numbers.value;
    var cubes := FillBox(n);
    SortedBox(cubes, n);
    r := Ok(Brick(SortBy(cubes, CubeLe), Min(n[2], n[5])));
  }

  /** A line in the puzzle's format: the two corners as decimal numbers, the coordinates
      of a corner separated by commas and the corners by '~'. */
  function ShowCorners(n: seq<nat>): string
    requires |n| == 6
  {
    Join([Decimal(n[0]), Decimal(n[1]), Decimal(n[2])], ',') + "~" + Join([Decimal(n[3]), Decimal(n[4]), Decimal(n[5])], ',')
  }

  /** Reading '~' as a comma where it is the only '~'. */
  lemma UnifyTilde(a: string, b: string)
    requires '~' !in a && '~' !in b
    ensures Unify(a + "~" + b) == a + "," + b
  {
  }

  /** A number as written holds neither separator and reads back as itself. */
  lemma DecimalPiece(v: nat)
    ensures '~' !in Decimal(v) && ',' !in Decimal(v) && ParseNat(Decimal(v)) == Ok(v)
  {
    var d := Decimal(v);
    assert forall i :: 0 <= i < |d| ==> IsDigit(d[i]);
    ParseDecimal(v);
  }

  /** The six numbers of a line as written, in order. */
  function Pieces(n: seq<nat>): (d: seq<string>)
    requires |n| == 6
    ensures |d| == 6 && forall k :: 0 <= k < 6 ==> d[k] == Decimal(n[k])
  {
    [Decimal(n[0]), Decimal(n[1]), Decimal(n[2]), Decimal(n[3]), Decimal(n[4]), Decimal(n[5])]
  }

  /** With '~' read as a comma, a written line is its six numbers joined by commas. */
  lemma UnifyShow(n: seq<nat>)
    requires |n| == 6
    ensures forall k :: 0 <= k < 6 ==> ',' !in Pieces(n)[k]
    ensures Unify(ShowCorners(n)) == Join(Pieces(n), ',')
  {
    var d := Pieces(n);
    forall k | 0 <= k < 6
      ensures '~' !in d[k] && ',' !in d[k]
    {
      DecimalPiece(n[k]);
    }
    assert d[..3] == [Decimal(n[0]), Decimal(n[1]), Decimal(n[2])];
    assert d[3..] == [Decimal(n[3]), Decimal(n[4]), Decimal(n[5])];
    JoinAvoids(d[..3], ',', '~');
    JoinAvoids(d[3..], ',', '~');
    UnifyTilde(Join(d[..3], ','), Join(d[3..], ','));
    JoinConcat(d[..3], d[3..], ',');
    assert d[..3] + d[3..] == d;
  }

  /** Every written line reads back as its six corners. */
  lemma CornersShow(n: seq<nat>)
    requires |n| == 6
    ensures Corners(ShowCorners(n)) == Some(n)
  {
    var d := Pieces(n);
    UnifyShow(n);
    SplitJoin(d, ',');
    forall k | 0 <= k < 6
      ensures ParseNat(d[k]) == Ok(n[k])
    {
      DecimalPiece(n[k]);
    }
    var numbers := ParseNats(d);
    assert numbers.Ok? && numbers.value == n;
  }

  // ---------------------------------------------------------------------------------
  // Settling
  // ---------------------------------------------------------------------------------

  /** The order `sorted_by_key(|brick| brick.level)` puts bricks in. */
  predicate LevelLe(a: Brick, b: Brick) {
    a.level <= b.level
  }

  /** Bricks are settled in increasing level order, each brick of the input once. */
  lemma SettleOrder(bricks: seq<Brick>)
    ensures SortedBy(SortBy(bricks, LevelLe), LevelLe)
    ensures multiset(SortBy(bricks, LevelLe)) == multiset(bricks)
  {
    SortBySorted(bricks, LevelLe);
  }

  /** Some cube is already taken (`any(|cube| occupied.contains(cube))`). */
  predicate Hits(cubes: seq<Cube>, occupied: set<Cube>) {
    exists k :: 0 <= k < |cubes| && cubes[k] in occupied
  }

  /** The brick lowered step by step while it is above level 1 and the step down is free. */
  function Drop(b: Brick, occupied: set<Cube>): (r: Brick)
    requires Resting(b)
    ensures Resting(r) && r.level <= b.level
    ensures r.level > 1 ==> Hits(r.Lower().cubes, occupied)
    ensures r != b ==> !Hits(r.cubes, occupied)
    decreases b.level
  {
    if b.level > 1 && !Hits(b.Lower().cubes, occupied) then Drop(b.Lower(), occupied) else b
  }

  /** The brick only moves straight down, by the levels it lost. */
  lemma {:induction false} DropShifts(b: Brick, occupied: set<Cube>)
    requires Resting(b)
    ensures |Drop(b, occupied).cubes| == |b.cubes|
    ensures forall k :: 0 <= k < |b.cubes| ==>
      Drop(b, occupied).cubes[k] == Cube(b.cubes[k].x, b.cubes[k].y, b.cubes[k].z - (b.level - Drop(b, occupied).level))
    decreases b.level
  {
    if b.level > 1 && !Hits(b.Lower().cubes, occupied) {
      DropShifts(b.Lower(), occupied);
    }
  }

  /** The cubes of one brick. */
  function CubesOf(b: Brick): set<Cube> {
    set k | 0 <= k < |b.cubes| :: b.cubes[k]
  }

  /** Every cube of the settled bricks. */
  function Occupied(settled: seq<Brick>): set<Cube> {
    if settled == [] then {}
    else Occupied(settled[..|settled| - 1]) + CubesOf(settled[|settled| - 1])
  }

  /** A cube is occupied exactly when some settled brick holds it. */
  lemma {:induction false} OccupiedHolds(settled: seq<Brick>, c: Cube)
    ensures c in Occupied(settled) <==> exists b :: b in settled && c in b.cubes
  {
    if settled != [] {
      var last := settled[|settled| - 1];
      OccupiedHolds(settled[..|settled| - 1], c);
      assert settled == settled[..|settled| - 1] + [last];
      assert c in CubesOf(last) <==> c in last.cubes by {
        if c in last.cubes {
          var k :| 0 <= k < |last.cubes| && last.cubes[k] == c;
        }
      }
    }
  }

  /** The bricks in the order given, each dropped onto the ones settled before it. */
  function Fall(order: seq<Brick>): (r: seq<Brick>)
    requires forall k :: 0 <= k < |order| ==> Resting(order[k])
    ensures |r| == |order|
  {
    if order == [] then []
    else
      var before := Fall(order[..|order| - 1]);
      before + [Drop(order[|order| - 1], Occupied(before))]
  }

  /** The `for` loop of `part1`: each brick is lowered while it can be, then its cubes are
      added to `occupied` and it is pushed onto `settled`. */
  method Settle(order: seq<Brick>) returns (settled: seq<Brick>, occupied: set<Cube>)
    requires forall k :: 0 <= k < |order| ==> Resting(order[k])
    ensures settled == Fall(order)
    ensures occupied == Occupied(settled)
  {
    settled, occupied := [], {};
    for i := 0 to |order|
      invariant settled == Fall(order[..i])
      invariant occupied == Occupied(settled)
    {
      var brick := Descend(order[i], occupied);
      occupied := Occupy(occupied, brick);
      assert order[..i + 1][..i] == order[..i];
      settled := settled + [brick];
      assert settled[..|settled| - 1] == Fall(order[..i]);
    }
    assert order[..|order|] == order;
  }

  /** The inner `while` of `part1`: the brick goes down while the step below is free. */
  method Descend(start: Brick, occupied: set<Cube>) returns (brick: Brick)
    requires Resting(start)
    ensures brick == Drop(start, occupied)
  {
    brick := start;
    while brick.level > 1
      invariant Resting(brick)
      invariant Drop(brick, occupied) == Drop(start, occupied)
      decreases brick.level
    {
      var lowered := brick.Lower();
      if Hits(lowered.cubes, occupied) {
        break;
      }
      brick := lowered;
    }
  }

  /** The cubes of the brick added to the occupied set, one by one. */
  method Occupy(occupied: set<Cube>, brick: Brick) returns (more: set<Cube>)
    ensures more == occupied + CubesOf(brick)
  {
    more := occupied;
    for j := 0 to |brick.cubes|
      invariant more == occupied + set k | 0 <= k < j :: brick.cubes[k]
    {
      more := more + {brick.cubes[j]};
    }
  }

  /** Each brick settles onto exactly the bricks settled before it. */
  lemma {:induction false} FallAt(order: seq<Brick>, k: nat)
    requires forall k :: 0 <= k < |order| ==> Resting(order[k])
    requires k < |order|
    ensures Fall(order)[k] == Drop(order[k], Occupied(Fall(order)[..k]))
  {
    var prefix := order[..|order| - 1];
    if k < |order| - 1 {
      FallAt(prefix, k);
      assert Fall(order)[..k] == Fall(prefix)[..k];
    } else {
      assert Fall(order)[..k] == Fall(prefix);
    }
  }

  /** Settled bricks stay above the ground and never rise. */
  lemma FallRests(order: seq<Brick>)
    requires forall k :: 0 <= k < |order| ==> Resting(order[k])
    ensures forall k :: 0 <= k < |order| ==> Resting(Fall(order)[k]) && Fall(order)[k].level <= order[k].level
    ensures forall b :: b in Fall(order) ==> Resting(b)
  {
    forall k | 0 <= k < |order|
      ensures Resting(Fall(order)[k]) && Fall(order)[k].level <= order[k].level
    {
      FallAt(order, k);
    }
  }

  /** Occupied cubes only accumulate. */
  lemma OccupiedPrefix(settled: seq<Brick>, k: nat, c: Cube)
    requires k <= |settled| && c in Occupied(settled[..k])
    ensures c in Occupied(settled)
  {
    OccupiedHolds(settled[..k], c);
    OccupiedHolds(settled, c);
  }

  /** A settled brick above level 1 would run into an occupied cube if lowered once more. */
  lemma FallBlocked(order: seq<Brick>, k: nat)
    requires forall k :: 0 <= k < |order| ==> Resting(order[k])
    requires k < |order|
    ensures Resting(Fall(order)[k]) && (Fall(order)[k].level > 1 ==> Hits(Fall(order)[k].Lower().cubes, Occupied(Fall(order))))
  {
    var settled := Fall(order);
    FallAt(order, k);
    if settled[k].level > 1 {
      var cubes := settled[k].Lower().cubes;
      var j :| 0 <= j < |cubes| && cubes[j] in Occupied(settled[..k]);
      OccupiedPrefix(settled, k, cubes[j]);
    }
  }

  // ---------------------------------------------------------------------------------
  // Which bricks can be taken away
  // ---------------------------------------------------------------------------------

  /** The brick `bricks_by_cube` maps the cube to: every settled brick's cubes are
      inserted in order, so the last brick holding the cube wins. */
  function Owner(settled: seq<Brick>, c: Cube): (r: Option<Brick>)
    ensures r.Some? ==> r.value in settled && c in r.value.cubes
    ensures r.None? ==> forall k :: 0 <= k < |settled| ==> c !in settled[k].cubes
  {
    if settled == [] then None
    else if c in settled[|settled| - 1].cubes then Some(settled[|settled| - 1])
    else Owner(settled[..|settled| - 1], c)
  }

  /** The owner is the last brick holding the cube. */
  lemma {:induction false} OwnerLast(settled: seq<Brick>, c: Cube)
    requires Owner(settled, c).Some?
    ensures exists k :: 0 <= k < |settled| && Owner(settled, c) == Some(settled[k]) && Unheld(settled, c, k)
  {
    var n := |settled|;
    if c !in settled[n - 1].cubes {
      var prefix := settled[..n - 1];
      OwnerLast(prefix, c);
      var k :| 0 <= k < n - 1 && Owner(prefix, c) == Some(prefix[k]) && Unheld(prefix, c, k);
      assert Unheld(settled, c, k) by {
        forall j | k < j < n
          ensures c !in settled[j].cubes
        {
          if j < n - 1 {
            assert settled[j] == prefix[j];
          }
        }
      }
    } else {
      assert Unheld(settled, c, n - 1);
    }
  }

  /** No brick after position `k` holds the cube. */
  predicate Unheld(settled: seq<Brick>, c: Cube, k: nat) {
    forall j :: k < j < |settled| ==> c !in settled[j].cubes
  }

  /** The distinct bricks found at the given cubes (`filter_map(get)` then `unique`). */
  function Holders(settled: seq<Brick>, cubes: seq<Cube>): (r: set<Brick>)
    ensures forall t :: t in r ==> t in settled
  {
    set k | 0 <= k < |cubes| && Owner(settled, cubes[k]).Some? :: Owner(settled, cubes[k]).value
  }

  /** The other bricks directly on top of `b`. */
  function Above(settled: seq<Brick>, b: Brick): (r: set<Brick>)
    ensures forall t :: t in r ==> t in settled && t != b
  {
    Holders(settled, b.Raise().cubes) - {b}
  }

  /** The other bricks directly under `s`. */
  function Below(settled: seq<Brick>, s: Brick): (r: set<Brick>)
    requires s.Lowerable()
    ensures forall t :: t in r ==> t in settled && t != s
  {
    Holders(settled, s.Lower().cubes) - {s}
  }

  /** The filter of `part1`: every brick on top of `b` stands on more than one brick. */
  predicate Safe(settled: seq<Brick>, b: Brick)
    requires forall t :: t in settled ==> Resting(t)
  {
    forall s :: s in Above(settled, b) ==> assert Resting(s); |Below(settled, s)| > 1
  }

  /** How many of the first `n` settled bricks pass the filter. */
  function SafeCount(settled: seq<Brick>, n: nat): (r: nat)
    requires n <= |settled|
    requires forall t :: t in settled ==> Resting(t)
    ensures r <= n
  {
    if n == 0 then 0
    else SafeCount(settled, n - 1) + (if Safe(settled, settled[n - 1]) then 1 else 0)
  }

  /** Where `b` owns its cubes, it is under every brick directly on top of it. */
  lemma UnderAbove(settled: seq<Brick>, b: Brick, s: Brick)
    requires Resting(s)
    requires forall k :: 0 <= k < |b.cubes| ==> Owner(settled, b.cubes[k]) == Some(b)
    requires s in Above(settled, b)
    ensures b in Below(settled, s)
  {
    var up := b.Raise().cubes;
    var k :| 0 <= k < |up| && Owner(settled, up[k]) == Some(s);
    var m :| 0 <= m < |s.cubes| && s.cubes[m] == up[k];
    assert s.Lower().cubes[m] == b.cubes[k];
  }

  /** A set holding `b` has more than one element exactly when it holds another. */
  lemma OtherThan(below: set<Brick>, b: Brick)
    requires b in below
    ensures |below| > 1 <==> exists t :: t in below && t != b
  {
    if |below| > 1 {
      assert below - {b} != {};
      var t :| t in below - {b};
      assert t in below && t != b;
    }
    if t :| t in below && t != b {
      var rest := below - {b, t};
      assert below == {b, t} + rest;
      assert |{b, t}| == 2;
    }
  }

  /** Where the bricks own their cubes, the filter says: every other brick directly on
      top of `b` also rests on some brick other than `b`. */
  lemma SafeMeans(settled: seq<Brick>, b: Brick)
    requires forall t :: t in settled ==> Resting(t)
    requires forall k :: 0 <= k < |b.cubes| ==> Owner(settled, b.cubes[k]) == Some(b)
    ensures Safe(settled, b) <==>
      forall s :: s in Above(settled, b) ==> exists t :: t in Below(settled, s) && t != b
  {
    forall s | s in Above(settled, b)
      ensures |Below(settled, s)| > 1 <==> exists t :: t in Below(settled, s) && t != b
    {
      assert Resting(s);
      UnderAbove(settled, b, s);
      OtherThan(Below(settled, s), b);
    }
  }

  /** Sorting keeps every brick of the input. */
  lemma OrderRests(bricks: seq<Brick>)
    requires forall k :: 0 <= k < |bricks| ==> Resting(bricks[k])
    ensures forall k :: 0 <= k < |bricks| ==> Resting(SortBy(bricks, LevelLe)[k])
  {
    var order := SortBy(bricks, LevelLe);
    forall k | 0 <= k < |order|
      ensures Resting(order[k])
    {
      assert order[k] in multiset(bricks);
    }
  }

  /** The answer of `part1`: the bricks sorted by level, settled, and the safe ones
      counted. It never exceeds the number of bricks. */
  function Answer(bricks: seq<Brick>): (r: nat)
    requires forall k :: 0 <= k < |bricks| ==> Resting(bricks[k])
    ensures r <= |bricks|
  {
    OrderRests(bricks);
    var order := SortBy(bricks, LevelLe);
    FallRests(order);
    SafeCount(Fall(order), |bricks|)
  }

  /** `part1`, with the settling done by the loop. */
  method Part1(bricks: seq<Brick>) returns (count: nat)
    requires forall k :: 0 <= k < |bricks| ==> Resting(bricks[k])
    ensures count == Answer(bricks)
  {
    OrderRests(bricks);
    var order := SortBy(bricks, LevelLe);
    var settled, occupied := Settle(order);
    FallRests(order);
    count := SafeCount(settled, |settled|);
  }
}
