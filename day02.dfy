/** Day 2, Cube Conundrum: each game is a list of reveals, and each reveal a handful of
    "count colour" items folded into a (red, green, blue) triple. */
module Day02 {
  import opened Wrappers

  datatype Rgb = Rgb(red: nat, green: nat, blue: nat)

  /** A game: its id and the triples of its reveals. */
  datatype Game = Game(id: nat, draws: seq<Rgb>)

  /** One "count colour" item as a triple; any colour but the three is an error. */
  function ItemTriple(count: nat, colour: string): (r: Result<Rgb>)
    ensures r.Ok? <==> colour in {"red", "green", "blue"}
    ensures r.Ok? ==> r.value.red + r.value.green + r.value.blue == count
    ensures r.Ok? ==> var item := [(count, colour)];
      r.value == Rgb(Total(item, "red"), Total(item, "green"), Total(item, "blue"))
    ensures r.Err? ==> r.error == "Unknown color: " + colour
  {
    match colour
    case "red" => Ok(Rgb(count, 0, 0))
    case "green" => Ok(Rgb(0, count, 0))
    case "blue" => Ok(Rgb(0, 0, count))
    case _ => Err("Unknown color: " + colour)
  }

  /** Reference definition: the total count of one colour among the items. */
  function Total(items: seq<(nat, string)>, colour: string): nat {
    if items == [] then 0
    else (if items[0].1 == colour then items[0].0 else 0) + Total(items[1..], colour)
  }

  /** The `fold_ok` over one reveal's items: componentwise sums, stopping at the first
      item with an unknown colour. */
  function Reveal(items: seq<(nat, string)>): (r: Result<Rgb>)
    ensures r.Ok? <==> forall k :: 0 <= k < |items| ==> items[k].1 in {"red", "green", "blue"}
    ensures r.Ok? ==> r.value == Rgb(Total(items, "red"), Total(items, "green"), Total(items, "blue"))
  {
    if items == [] then Ok(Rgb(0, 0, 0))
    else
      var first :- ItemTriple(items[0].0, items[0].1);
      var rest :- Reveal(items[1..]);
      Ok(Rgb(first.red + rest.red, first.green + rest.green, first.blue + rest.blue))
  }

  /** The bag of the first part holds 12 red, 13 green and 14 blue cubes. */
  predicate Fits(shown: Rgb, bag: Rgb) {
    shown.red <= bag.red && shown.green <= bag.green && shown.blue <= bag.blue
  }

  predicate Possible(game: Game) {
    forall k :: 0 <= k < |game.draws| ==> Fits(game.draws[k], Rgb(12, 13, 14))
  }

  /** `part1`: the sum of the ids of the possible games. */
  function Part1(games: seq<Game>): (r: nat)
    ensures r <= IdSum(games)
    ensures (forall k :: 0 <= k < |games| ==> Possible(games[k])) ==> r == IdSum(games)
    ensures (forall k :: 0 <= k < |games| ==> !Possible(games[k])) ==> r == 0
  {
    if games == [] then 0
    else (if Possible(games[0]) then games[0].id else 0) + Part1(games[1..])
  }

  function IdSum(games: seq<Game>): nat {
    if games == [] then 0 else games[0].id + IdSum(games[1..])
  }

  /** The per-colour maxima of the reveals, folded from (0, 0, 0). */
  function Minimal(draws: seq<Rgb>): (r: Rgb)
    ensures forall k :: 0 <= k < |draws| ==> Fits(draws[k], r)
  {
    if draws == [] then Rgb(0, 0, 0)
    else
      var rest := Minimal(draws[1..]);
      var first := draws[0];
      assert forall k :: 1 <= k < |draws| ==> draws[k] == draws[1..][k - 1];
      Rgb(Max(first.red, rest.red), Max(first.green, rest.green), Max(first.blue, rest.blue))
  }

  function Max(a: nat, b: nat): nat {
    if a < b then b else a
  }

  function Power(bag: Rgb): nat {
    bag.red * bag.green * bag.blue
  }

  /** The maxima form the least bag every reveal fits in, hence the least power among such
      bags. */
  lemma {:induction false} MinimalIsLeast(draws: seq<Rgb>, bag: Rgb)
    requires forall k :: 0 <= k < |draws| ==> Fits(draws[k], bag)
    ensures Fits(Minimal(draws), bag)
    ensures Power(Minimal(draws)) <= Power(bag)
  {
    if draws != [] {
      assert forall k :: 0 <= k < |draws[1..]| ==> draws[1..][k] == draws[k + 1];
      MinimalIsLeast(draws[1..], bag);
    }
    var m := Minimal(draws);
    ProductMonotone(m.red, m.green, m.blue, bag.red, bag.green, bag.blue);
  }

  lemma ProductMonotone(a: nat, b: nat, c: nat, x: nat, y: nat, z: nat)
    requires a <= x && b <= y && c <= z
    ensures a * b * c <= x * y * z
  {
    assert a * b <= x * y by {
      assert a * b <= x * b;
      assert x * b <= x * y;
    }
    assert a * b * c <= x * y * c;
    assert x * y * c <= x * y * z;
  }

  /** `part2`: the sum over games of the power of their minimal bag. No game's power
      exceeds it. */
  function Part2(games: seq<Game>): (r: nat)
    ensures forall k :: 0 <= k < |games| ==> Power(Minimal(games[k].draws)) <= r
  {
    if games == [] then 0
    else
      var rest := Part2(games[1..]);
      assert forall k :: 1 <= k < |games| ==> games[k] == games[1..][k - 1];
      Power(Minimal(games[0].draws)) + rest
  }

  /** The sum splits over a split list of games. */
  lemma {:induction false} Part2Append(a: seq<Game>, b: seq<Game>)
    ensures Part2(a + b) == Part2(a) + Part2(b)
  {
    if a == [] {
      assert a + b == b;
    } else {
      assert (a + b)[1..] == a[1..] + b;
      Part2Append(a[1..], b);
    }
  }

  /** Every reveal of game k fits in `bags[k]`. */
  predicate FitAll(games: seq<Game>, bags: seq<Rgb>)
    requires |bags| == |games|
  {
    forall k, j :: 0 <= k < |games| && 0 <= j < |games[k].draws| ==> Fits(games[k].draws[j], bags[k])
  }

  function PowerSum(bags: seq<Rgb>): nat {
    if bags == [] then 0 else Power(bags[0]) + PowerSum(bags[1..])
  }

  /** The answer is the least sum of powers over all choices of one bag per game that
      every reveal of that game fits in. */
  lemma {:induction false} Part2Least(games: seq<Game>, bags: seq<Rgb>)
    requires |bags| == |games| && FitAll(games, bags)
    ensures Part2(games) <= PowerSum(bags)
  {
    if games != [] {
      MinimalIsLeast(games[0].draws, bags[0]);
      assert FitAll(games[1..], bags[1..]) by {
        forall k, j | 0 <= k < |games| - 1 && 0 <= j < |games[1..][k].draws|
          ensures Fits(games[1..][k].draws[j], bags[1..][k])
        {
          assert games[1..][k] == games[k + 1] && bags[1..][k] == bags[k + 1];
        }
      }
      Part2Least(games[1..], bags[1..]);
    }
  }

  /** The minimal bags themselves attain that least sum. */
  lemma {:induction false} Part2Attained(games: seq<Game>)
    ensures var bags := seq(|games|, k requires 0 <= k < |games| => Minimal(games[k].draws));
      FitAll(games, bags) && Part2(games) == PowerSum(bags)
  {
    var bags := seq(|games|, k requires 0 <= k < |games| => Minimal(games[k].draws));
    if games != [] {
      Part2Attained(games[1..]);
      var tail := seq(|games| - 1, k requires 0 <= k < |games| - 1 => Minimal(games[1..][k].draws));
      assert bags[1..] == tail;
    }
  }

  /** The worked example, already folded into triples. */
  function SampleGames(): seq<Game> {
    [ Game(1, [Rgb(4, 0, 3), Rgb(1, 2, 6), Rgb(0, 2, 0)]),
      Game(2, [Rgb(0, 2, 1), Rgb(1, 3, 4), Rgb(0, 1, 1)]),
      Game(3, [Rgb(20, 8, 6), Rgb(4, 13, 5), Rgb(1, 5, 0)]),
      Game(4, [Rgb(3, 1, 6), Rgb(6, 3, 0), Rgb(14, 3, 15)]),
      Game(5, [Rgb(6, 3, 1), Rgb(1, 2, 2)]) ]
  }

  lemma SampleReveal()
    ensures Reveal([(3, "blue"), (4, "red")]) == Ok(Rgb(4, 0, 3))
    ensures Reveal([(3, "blue"), (4, "purple")]).Err?
  {
  }

  lemma SamplePart1()
    ensures Part1(SampleGames()) == 8
  {
    var g := SampleGames();
    assert Possible(g[0]) && Possible(g[1]) && Possible(g[4]);
    assert !Fits(g[2].draws[0], Rgb(12, 13, 14)) && !Fits(g[3].draws[2], Rgb(12, 13, 14));
  }

  lemma SamplePart2()
    ensures Part2(SampleGames()) == 2286
  {
    var g := SampleGames();
    assert Minimal(g[0].draws) == Rgb(4, 2, 6);
    assert Minimal(g[1].draws) == Rgb(1, 3, 4);
    assert Minimal(g[2].draws) == Rgb(20, 13, 6);
    assert Minimal(g[3].draws) == Rgb(14, 3, 15);
    assert Minimal(g[4].draws) == Rgb(6, 3, 2);
  }
}
