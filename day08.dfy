/** Day 8, Haunted Wasteland: a network maps each node to a left and a right neighbour,
    and a list of instructions, repeated forever, says which one to take. Part 1 counts
    the steps from "AAA" until "ZZZ" is first reached. */
module Day08 {
  import opened Wrappers

  datatype Instruction = Left | Right

  /** `Instruction::try_from`. */
  function ParseInstruction(c: char): (r: Result<Instruction>)
    ensures r.Ok? <==> c == 'L' || c == 'R'
    ensures r.Ok? ==> ShowInstruction(r.value) == c
    ensures r.Err? ==> r.error == "Invalid instruction: " + [c]
  {
    match c
    case 'L' => Ok(Left)
    case 'R' => Ok(Right)
    case _ => Err("Invalid instruction: " + [c])
  }

  function ShowInstruction(i: Instruction): char {
    match i
    case Left => 'L'
    case Right => 'R'
  }

  /** Reading back the letter of an instruction gives the instruction. */
  lemma ParseShow(i: Instruction)
    ensures ParseInstruction(ShowInstruction(i)) == Ok(i)
  {
  }

  /** The node names, each with its (left, right) pair. */
  type Network = map<string, (string, string)>

  /** One step: the left or the right neighbour; `None` where the source's `unwrap` of
      the lookup panics. */
  function Step(network: Network, location: string, instruction: Instruction): (r: Option<string>)
    ensures r.Some? <==> location in network
    ensures r.Some? && instruction == Left ==> r.value == network[location].0
    ensures r.Some? && instruction == Right ==> r.value == network[location].1
  {
    if location !in network then None
    else if instruction == Left then Some(network[location].0)
    else Some(network[location].1)
  }

  /** The position in a list of n instructions that `cycle` yields at step k: it counts
      up and starts again at 0 after n - 1. */
  function Cycle(n: nat, k: nat): (r: nat)
    requires n > 0
    ensures r < n
  {
    if k == 0 then 0 else if Cycle(n, k - 1) + 1 == n then 0 else Cycle(n, k - 1) + 1
  }

  /** The position is the step count modulo n. */
  lemma {:induction false} CycleIsModulo(n: nat, k: nat)
    requires n > 0
    ensures Cycle(n, k) == k % n
  {
    if k > 0 {
      CycleIsModulo(n, k - 1);
      var q := (k - 1) / n;
      assert k - 1 == q * n + Cycle(n, k - 1);
      if Cycle(n, k - 1) + 1 == n {
        ModUnique(k, n, q + 1, 0);
      } else {
        ModUnique(k, n, q, Cycle(n, k - 1) + 1);
      }
    }
  }

  lemma MulAtLeast(d: int, n: int)
    requires d >= 1 && n > 0
    ensures d * n >= n
  {
  }

  /** Euclidean division leaves one remainder. */
  lemma ModUnique(a: int, n: int, q: int, r: int)
    requires n > 0 && 0 <= r < n && a == q * n + r
    ensures a % n == r
  {
    var d := q - a / n;
    assert a == (a / n) * n + a % n;
    assert d * n == q * n - (a / n) * n;
    assert d * n == a % n - r;
    if d >= 1 {
      MulAtLeast(d, n);
    } else if d <= -1 {
      MulAtLeast(-d, n);
    }
  }

  /** Reference definition: where the walk from "AAA" is after k steps, step j applying
      the instruction `cycle` yields at step j; `None` once a lookup has failed. */
  function Walk(instructions: seq<Instruction>, network: Network, k: nat): Option<string>
    requires |instructions| > 0
  {
    if k == 0 then Some("AAA")
    else
      match Walk(instructions, network, k - 1)
      case None => None
      case Some(location) => Step(network, location, instructions[Cycle(|instructions|, k - 1)])
  }

  /** A walk that gets somewhere after k steps got somewhere at every earlier step. */
  lemma {:induction false} WalkDefinedBefore(instructions: seq<Instruction>, network: Network, j: nat, k: nat)
    requires |instructions| > 0 && j <= k
    requires Walk(instructions, network, k).Some?
    ensures Walk(instructions, network, j).Some?
    decreases k - j
  {
    if j < k {
      WalkDefinedBefore(instructions, network, j + 1, k);
    }
  }

  predicate Arrived(instructions: seq<Instruction>, network: Network, k: nat)
    requires |instructions| > 0
  {
    Walk(instructions, network, k) == Some("ZZZ")
  }

  /** `part1`: the loop over the cycled instructions stops at the first step count where
      the walk is at "ZZZ". On an empty list `cycle` yields nothing and the answer is 0.
      The source loops forever (or panics) when "ZZZ" is never reached; the precondition
      rules that out. */
  method Part1(instructions: seq<Instruction>, network: Network) returns (distance: nat)
    requires |instructions| == 0 || exists k :: Arrived(instructions, network, k)
    ensures |instructions| == 0 ==> distance == 0
    ensures |instructions| > 0 ==> Arrived(instructions, network, distance)
    ensures |instructions| > 0 ==> forall j :: 0 <= j < distance ==> !Arrived(instructions, network, j)
  {
    distance := 0;
    if |instructions| == 0 {
      return;
    }
    ghost var target: nat :| Arrived(instructions, network, target);
    var location := "AAA";
    var index := 0;
    while location != "ZZZ"
      invariant index == Cycle(|instructions|, distance)
      invariant Walk(instructions, network, distance) == Some(location)
      invariant forall j :: 0 <= j < distance ==> !Arrived(instructions, network, j)
      invariant distance <= target
      decreases target - distance
    {
      assert distance < target;
      WalkDefinedBefore(instructions, network, distance + 1, target);
      var next := Step(network, location, instructions[index]);
      assert Walk(instructions, network, distance + 1) == next;
      location := next.value;
      distance := distance + 1;
      index := if index + 1 == |instructions| then 0 else index + 1;
    }
  }

  /** The first worked example: RL, reaching ZZZ in 2 steps. */
  function Sample1(): Network {
    map[
      "AAA" := ("BBB", "CCC"), "BBB" := ("DDD", "EEE"), "CCC" := ("ZZZ", "GGG"),
      "DDD" := ("DDD", "DDD"), "EEE" := ("EEE", "EEE"), "GGG" := ("GGG", "GGG"),
      "ZZZ" := ("ZZZ", "ZZZ")]
  }

  lemma Sample1Steps()
    ensures Arrived([Right, Left], Sample1(), 2)
    ensures !Arrived([Right, Left], Sample1(), 0) && !Arrived([Right, Left], Sample1(), 1)
  {
    assert Walk([Right, Left], Sample1(), 1) == Some("CCC");
  }

  /** The second worked example: LLR, reaching ZZZ in 6 steps. */
  function Sample2(): Network {
    map["AAA" := ("BBB", "BBB"), "BBB" := ("AAA", "ZZZ"), "ZZZ" := ("ZZZ", "ZZZ")]
  }

  lemma Sample2Steps()
    ensures Arrived([Left, Left, Right], Sample2(), 6)
    ensures forall j :: 0 <= j < 6 ==> !Arrived([Left, Left, Right], Sample2(), j)
  {
    var w := [Left, Left, Right];
    assert Walk(w, Sample2(), 1) == Some("BBB");
    assert Walk(w, Sample2(), 2) == Some("AAA");
    assert Walk(w, Sample2(), 3) == Some("BBB");
    assert Walk(w, Sample2(), 4) == Some("AAA");
    assert Walk(w, Sample2(), 5) == Some("BBB");
  }
}
