/** Day 5, If You Give A Seed A Fertilizer: an almanac maps each category (seed, soil, ...)
    to the next one through ranges that shift numbers; a number no range contains keeps its
    value. Part 1 follows single seeds to their locations; part 2 follows whole intervals of
    seeds, cutting them where a range begins or ends. */
module Day05 {
  import opened Wrappers

  /** A half-open interval [start, end) whose numbers are shifted by diff: a range of a map
      line, or in part 2 a piece of seeds together with the shift accumulated so far. */
  datatype Range = Range(start: int, end: int, diff: int)

  /** `(start..end).contains`. */
  predicate Contains(r: Range, x: int) {
    r.start <= x < r.end
  }

  /** A map line (destination start, source start, length) as a range over the sources. */
  function FromLine(destination: int, source: int, length: int): (r: Range)
    ensures forall x :: Contains(r, x) <==> source <= x < source + length
    ensures forall x :: Contains(r, x) ==> x + r.diff == destination + (x - source)
  {
    Range(source, source + length, destination - source)
  }

  /** The categories: each one names the next category and the ranges that lead to it. */
  type Almanac = map<string, (string, seq<Range>)>

  /** The mapping stages from a category to "location", when the chain of categories gets
      there within fuel steps and every category on the way is in the almanac. */
  function Stages(almanac: Almanac, category: string, fuel: nat): Option<seq<seq<Range>>>
    decreases fuel
  {
    if category == "location" then Some([])
    else if fuel == 0 || category !in almanac then None
    else
      match Stages(almanac, almanac[category].0, fuel - 1)
      case None => None
      case Some(rest) => Some([almanac[category].1] + rest)
  }

  /** The walk from "seed" reaches "location". A chain that gets there never repeats a
      category, so the number of categories bounds its length; otherwise the loops of both
      parts run forever or panic on a missing category. */
  predicate Complete(almanac: Almanac) {
    Stages(almanac, "seed", |almanac|).Some?
  }

  /** Walking one category further takes the next stage off the chain. */
  lemma StagesStep(almanac: Almanac, category: string, fuel: nat, stages: seq<seq<Range>>, done: nat)
    requires category != "location" && done <= |stages|
    requires Stages(almanac, category, fuel) == Some(stages[done..])
    ensures fuel > 0 && category in almanac && done < |stages| && stages[done] == almanac[category].1
    ensures Stages(almanac, almanac[category].0, fuel - 1) == Some(stages[done + 1..])
  {
    var rest := Stages(almanac, almanac[category].0, fuel - 1).value;
    assert stages[done..] == [almanac[category].1] + rest;
    assert stages[done..][1..] == stages[done + 1..];
  }

  /** One stage of part 1: the first range containing x shifts it. */
  function Convert(ranges: seq<Range>, x: int): int {
    if ranges == [] then x
    else if Contains(ranges[0], x) then x + ranges[0].diff
    else Convert(ranges[1..], x)
  }

  /** Convert applies the first range that contains the number. */
  lemma {:induction false} ConvertFirst(ranges: seq<Range>, x: int, k: nat)
    requires k < |ranges| && Contains(ranges[k], x)
    requires forall m :: 0 <= m < k ==> !Contains(ranges[m], x)
    ensures Convert(ranges, x) == x + ranges[k].diff
  {
    if k > 0 {
      assert !Contains(ranges[0], x);
      ConvertFirst(ranges[1..], x, k - 1);
    }
  }

  /** A number that no range contains is unchanged. */
  lemma {:induction false} ConvertNone(ranges: seq<Range>, x: int)
    requires forall m :: 0 <= m < |ranges| ==> !Contains(ranges[m], x)
    ensures Convert(ranges, x) == x
  {
    if ranges != [] {
      assert !Contains(ranges[0], x);
      ConvertNone(ranges[1..], x);
    }
  }

  /** The number reached after the given stages. */
  function Location(stages: seq<seq<Range>>, x: int): int {
    if stages == [] then x
    else
      var k := |stages| - 1;
      Convert(stages[k], Location(stages[..k], x))
  }

  /** The `for` loop of `part1` over one stage's ranges, leaving at the first range that
      contains the number. */
  method NextNumber(ranges: seq<Range>, x: int) returns (y: int)
    ensures y == Convert(ranges, x)
  {
    y := x;
    var k := 0;
    while k < |ranges|
      invariant k <= |ranges| && Convert(ranges[k..], x) == Convert(ranges, x) && y == x
    {
      assert ranges[k..][1..] == ranges[k + 1..];
      if Contains(ranges[k], x) {
        y := x + ranges[k].diff;
        break;
      }
      k := k + 1;
    }
  }

  /** The `while` loop of `part1` for one seed: stage after stage until "location". */
  method Locate(almanac: Almanac, seed: int, ghost stages: seq<seq<Range>>) returns (number: int)
    requires Stages(almanac, "seed", |almanac|) == Some(stages)
    ensures number == Location(stages, seed)
  {
    var category := "seed";
    number := seed;
    ghost var fuel: nat := |almanac|;
    ghost var done: nat := 0;
    while category != "location"
      invariant done <= |stages| && Stages(almanac, category, fuel) == Some(stages[done..])
      invariant number == Location(stages[..done], seed)
      decreases fuel
    {
      var entry := almanac[category];
      StagesStep(almanac, category, fuel, stages, done);
      assert stages[..done + 1][..done] == stages[..done];
      number := NextNumber(entry.1, number);
      category := entry.0;
      fuel := fuel - 1;
      done := done + 1;
    }
    assert stages[..done] == stages;
  }

  /** `part1`: the least location over the seeds. */
  method Part1(seeds: seq<int>, almanac: Almanac) returns (r: int)
    requires |seeds| > 0 && Complete(almanac)
    ensures var stages := Stages(almanac, "seed", |almanac|).value;
      (exists k :: 0 <= k < |seeds| && r == Location(stages, seeds[k])) &&
      forall k :: 0 <= k < |seeds| ==> r <= Location(stages, seeds[k])
  {
    ghost var stages := Stages(almanac, "seed", |almanac|).value;
    r := Locate(almanac, seeds[0], stages);
    ghost var best := 0;
    for k := 1 to |seeds|
      invariant best < k && r == Location(stages, seeds[best])
      invariant forall m :: 0 <= m < k ==> r <= Location(stages, seeds[m])
    {
      var location := Locate(almanac, seeds[k], stages);
      if location < r {
        r := location;
        best := k;
      }
    }
  }

  // Part 2.

  /** `seeds.tuples()`: consecutive (start, length) pairs as pieces with no shift; a last
      unpaired number is dropped. */
  function SeedRanges(seeds: seq<int>): (r: seq<Range>)
    ensures |r| == |seeds| / 2
    ensures forall k :: 0 <= k < |r| ==> r[k] == Range(seeds[2 * k], seeds[2 * k] + seeds[2 * k + 1], 0)
  {
    if |seeds| < 2 then []
    else [Range(seeds[0], seeds[0] + seeds[1], 0)] + SeedRanges(seeds[2..])
  }

  /** The shifted extent of a piece lies wholly inside the range. */
  predicate Inside(p: Range, r: Range) {
    r.start <= p.start + p.diff && p.end + p.diff <= r.end
  }

  /** The shifted extent of a piece lies wholly inside or wholly outside the range. */
  predicate Aligned(p: Range, r: Range) {
    p.end + p.diff <= r.start || r.end <= p.start + p.diff || Inside(p, r)
  }

  /** The cut of `part2` AS WRITTEN: a piece whose shifted extent starts in the range and
      ends past it is cut at the range's end; one that starts before the range and ends
      strictly inside it is cut at the range's start; any other piece is kept whole. */
  function CutAsWritten(p: Range, r: Range): seq<Range> {
    var (start, end, diff) := (p.start, p.end, p.diff);
    if start + diff >= r.start && end + diff <= r.end then [p]
    else if start + diff >= r.start && start + diff < r.end then
      [Range(start, r.end - diff, diff), Range(r.end - diff, end, diff)]
    else if end + diff > r.start && end + diff < r.end then
      [Range(start, r.start - diff, diff), Range(r.start - diff, end, diff)]
    else [p]
  }

  /** As written, the cut replaces a non-empty piece by one or two non-empty contiguous
      parts, with its shift, that cover exactly the piece. */
  lemma CutAsWrittenParts(p: Range, r: Range)
    requires p.start < p.end
    ensures var pieces := CutAsWritten(p, r);
      1 <= |pieces| <= 2 && Parts(pieces, p) && Covers(pieces, p) &&
      pieces[0].start == p.start && pieces[|pieces| - 1].end == p.end &&
      (|pieces| == 2 ==> pieces[0].end == pieces[1].start)
  {
    var pieces := CutAsWritten(p, r);
    forall x | Contains(p, x) ensures exists q :: q in pieces && Contains(q, x) {
      if !Contains(pieces[0], x) {
        assert Contains(pieces[1], x);
      }
    }
  }

  /** A piece whose shifted extent starts before the range and ends at its end is not cut,
      so neither its part inside the range nor its part before it is aligned: seeds 1 to 9
      against the map line "0 5 5". */
  lemma CutAsWrittenMisses()
    ensures CutAsWritten(Range(1, 10, 0), Range(5, 10, -5)) == [Range(1, 10, 0)]
    ensures !Aligned(Range(1, 10, 0), Range(5, 10, -5))
    ensures Shift(Range(1, 10, 0), [Range(5, 10, -5)]) == Range(1, 10, 0)
    ensures Convert([FromLine(0, 5, 5)], 5) == 0
  {
  }

  /** Cuts a piece where its shifted extent crosses the bound. */
  function CutAt(p: Range, bound: int): seq<Range> {
    if p.start + p.diff < bound < p.end + p.diff then
      [Range(p.start, bound - p.diff, p.diff), Range(bound - p.diff, p.end, p.diff)]
    else [p]
  }

  /** The cut as intended: at the range's start and at its end, wherever the piece's shifted
      extent crosses them, so that every piece is aligned with the range. */
  function Cut(p: Range, r: Range): seq<Range> {
    if p.start + p.diff < r.start < p.end + p.diff then
      [Range(p.start, r.start - p.diff, p.diff)] + CutAt(Range(r.start - p.diff, p.end, p.diff), r.end)
    else CutAt(p, r.end)
  }

  /** q is a non-empty part of p with the same shift. */
  predicate Part(q: Range, p: Range) {
    q.diff == p.diff && p.start <= q.start < q.end <= p.end
  }

  predicate Parts(pieces: seq<Range>, p: Range) {
    forall q :: q in pieces ==> Part(q, p)
  }

  /** Every number of p lies in one of the pieces. */
  ghost predicate Covers(pieces: seq<Range>, p: Range) {
    forall x :: Contains(p, x) ==> exists q :: q in pieces && Contains(q, x)
  }

  ghost predicate AlignedAll(pieces: seq<Range>, ranges: seq<Range>) {
    forall q, r :: q in pieces && r in ranges ==> Aligned(q, r)
  }

  /** A part of a piece aligned with a range is aligned with it too. */
  lemma PartAligned(q: Range, p: Range, r: Range)
    requires Part(q, p) && Aligned(p, r)
    ensures Aligned(q, r)
  {
  }

  lemma CutAtParts(p: Range, bound: int)
    requires p.start < p.end
    ensures Parts(CutAt(p, bound), p) && Covers(CutAt(p, bound), p)
    ensures forall q :: q in CutAt(p, bound) ==> q.end + q.diff <= bound || bound <= q.start + q.diff
  {
    var pieces := CutAt(p, bound);
    forall x | Contains(p, x) ensures exists q :: q in pieces && Contains(q, x) {
      if |pieces| == 2 && !Contains(pieces[0], x) {
        assert Contains(pieces[1], x);
      } else {
        assert Contains(pieces[0], x);
      }
    }
  }

  /** The intended cut splits a non-empty piece into non-empty parts that cover it, each
      aligned with the range. */
  lemma CutParts(p: Range, r: Range)
    requires p.start < p.end
    ensures Parts(Cut(p, r), p) && Covers(Cut(p, r), p)
    ensures forall q :: q in Cut(p, r) ==> Aligned(q, r)
  {
    var pieces := Cut(p, r);
    if p.start + p.diff < r.start < p.end + p.diff {
      var low := Range(p.start, r.start - p.diff, p.diff);
      var high := Range(r.start - p.diff, p.end, p.diff);
      CutAtParts(high, r.end);
      assert pieces == [low] + CutAt(high, r.end);
      forall x | Contains(p, x) ensures exists q :: q in pieces && Contains(q, x) {
        if !Contains(low, x) {
          assert Contains(high, x);
          var q :| q in CutAt(high, r.end) && Contains(q, x);
          assert q in pieces;
        }
      }
    } else {
      CutAtParts(p, r.end);
    }
  }

  /** `flat_map` of the cut over the pieces built so far. */
  function CutAll(pieces: seq<Range>, r: Range): seq<Range> {
    if pieces == [] then []
    else Cut(pieces[0], r) + CutAll(pieces[1..], r)
  }

  /** The `fold` over a stage's ranges, cutting by each in turn. */
  function Split(pieces: seq<Range>, ranges: seq<Range>): seq<Range>
    decreases |ranges|
  {
    if ranges == [] then pieces
    else Split(CutAll(pieces, ranges[0]), ranges[1..])
  }

  /** Cutting parts of p gives parts of p that still cover it, aligned with the new range and
      with every range the old ones were aligned with. */
  lemma {:induction false} CutAllParts(pieces: seq<Range>, r: Range, p: Range, done: seq<Range>)
    requires Parts(pieces, p) && AlignedAll(pieces, done)
    ensures Parts(CutAll(pieces, r), p) && AlignedAll(CutAll(pieces, r), done + [r])
    ensures forall q, x :: q in pieces && Contains(q, x) ==> exists q' :: q' in CutAll(pieces, r) && Contains(q', x)
  {
    if pieces != [] {
      var head := pieces[0];
      assert head in pieces;
      CutParts(head, r);
      assert forall q :: q in pieces[1..] ==> q in pieces;
      CutAllParts(pieces[1..], r, p, done);
      var result := CutAll(pieces, r);
      assert result == Cut(head, r) + CutAll(pieces[1..], r);
      forall q, s | q in result && s in done + [r] ensures Aligned(q, s) {
        if q in Cut(head, r) {
          if s in done {
            PartAligned(q, head, s);
          }
        }
      }
      forall q, x | q in pieces && Contains(q, x)
        ensures exists q' :: q' in result && Contains(q', x)
      {
        if q == head {
          var q' :| q' in Cut(head, r) && Contains(q', x);
          assert q' in result;
        } else {
          assert q in pieces[1..];
          var q' :| q' in CutAll(pieces[1..], r) && Contains(q', x);
          assert q' in result;
        }
      }
    }
  }

  /** After the fold, the pieces are parts of p that cover it, each aligned with every range
      of the stage. */
  lemma {:induction false} SplitParts(pieces: seq<Range>, ranges: seq<Range>, p: Range, done: seq<Range>)
    requires Parts(pieces, p) && Covers(pieces, p) && AlignedAll(pieces, done)
    ensures Parts(Split(pieces, ranges), p) && Covers(Split(pieces, ranges), p)
    ensures AlignedAll(Split(pieces, ranges), done + ranges)
    decreases |ranges|
  {
    if ranges != [] {
      CutAllParts(pieces, ranges[0], p, done);
      SplitParts(CutAll(pieces, ranges[0]), ranges[1..], p, done + [ranges[0]]);
      assert done + [ranges[0]] + ranges[1..] == done + ranges;
    }
  }

  /** The `find` of `part2`: the first range holding the whole shifted piece adds its shift;
      without one the piece is unchanged. */
  function Shift(q: Range, ranges: seq<Range>): (r: Range)
    ensures r.start == q.start && r.end == q.end
  {
    if ranges == [] then q
    else if Inside(q, ranges[0]) then Range(q.start, q.end, q.diff + ranges[0].diff)
    else Shift(q, ranges[1..])
  }

  /** On a piece aligned with every range, the shift moves each of its numbers exactly as
      `part1` converts it. */
  lemma {:induction false} ShiftConverts(q: Range, ranges: seq<Range>, x: int)
    requires Contains(q, x) && forall r :: r in ranges ==> Aligned(q, r)
    ensures x + Shift(q, ranges).diff == Convert(ranges, x + q.diff)
  {
    if ranges != [] {
      assert ranges[0] in ranges;
      if !Inside(q, ranges[0]) {
        assert forall r :: r in ranges[1..] ==> r in ranges;
        ShiftConverts(q, ranges[1..], x);
      }
    }
  }

  function ShiftAll(pieces: seq<Range>, ranges: seq<Range>): (r: seq<Range>)
    ensures |r| == |pieces| && forall k :: 0 <= k < |r| ==> r[k] == Shift(pieces[k], ranges)
  {
    if pieces == [] then [] else [Shift(pieces[0], ranges)] + ShiftAll(pieces[1..], ranges)
  }

  /** One stage of `part2` for one piece: cut by every range, then shift. */
  function StageOne(p: Range, ranges: seq<Range>): seq<Range> {
    ShiftAll(Split([p], ranges), ranges)
  }

  /** One stage of `part2`: the `flat_map` over all pieces. */
  function Stage(pieces: seq<Range>, ranges: seq<Range>): seq<Range> {
    if pieces == [] then []
    else StageOne(pieces[0], ranges) + Stage(pieces[1..], ranges)
  }

  /** x is a seed of one of the seed ranges. */
  ghost predicate InSeeds(seeds: seq<Range>, x: int) {
    exists s :: s in seeds && Contains(s, x)
  }

  /** The pieces after the given stages: non-empty, each number of each piece is a seed that
      the piece's shift takes to its number after those stages, and every seed is in some
      piece. Pieces keep seed numbers as bounds and accumulate the shift. */
  ghost predicate Tracks(pieces: seq<Range>, seeds: seq<Range>, done: seq<seq<Range>>) {
    NonEmpty(pieces) && Sound(pieces, seeds, done) && SeedsCovered(pieces, seeds)
  }

  predicate NonEmpty(pieces: seq<Range>) {
    forall p :: p in pieces ==> p.start < p.end
  }

  ghost predicate Sound(pieces: seq<Range>, seeds: seq<Range>, done: seq<seq<Range>>) {
    forall p, x :: p in pieces && Contains(p, x) ==> InSeeds(seeds, x) && x + p.diff == Location(done, x)
  }

  ghost predicate SeedsCovered(pieces: seq<Range>, seeds: seq<Range>) {
    forall x :: InSeeds(seeds, x) ==> exists p :: p in pieces && Contains(p, x)
  }

  /** The pieces one stage makes of a single piece are parts of it that cover it, and shift
      every number as `part1` does. */
  lemma StageOneTracks(p: Range, ranges: seq<Range>)
    requires p.start < p.end
    ensures forall q :: q in StageOne(p, ranges) ==> p.start <= q.start < q.end <= p.end
    ensures forall q, x :: q in StageOne(p, ranges) && Contains(q, x) ==> x + q.diff == Convert(ranges, x + p.diff)
    ensures Covers(StageOne(p, ranges), p)
  {
    var split := Split([p], ranges);
    SplitParts([p], ranges, p, []);
    assert [] + ranges == ranges;
    var shifted := StageOne(p, ranges);
    forall q, x | q in shifted && Contains(q, x) ensures x + q.diff == Convert(ranges, x + p.diff) {
      var k :| 0 <= k < |shifted| && shifted[k] == q;
      assert split[k] in split;
      ShiftConverts(split[k], ranges, x);
    }
    forall q | q in shifted ensures p.start <= q.start < q.end <= p.end {
      var k :| 0 <= k < |shifted| && shifted[k] == q;
      assert split[k] in split;
    }
    forall x | Contains(p, x) ensures exists q :: q in shifted && Contains(q, x) {
      var q :| q in split && Contains(q, x);
      var k :| 0 <= k < |split| && split[k] == q;
      assert shifted[k] in shifted;
    }
  }

  /** A piece of a stage's result comes from one of the pieces it was made of, and every
      piece's results are in it. */
  lemma {:induction false} StageFrom(pieces: seq<Range>, ranges: seq<Range>, q: Range)
    ensures q in Stage(pieces, ranges) <==> exists p :: p in pieces && q in StageOne(p, ranges)
  {
    if pieces != [] {
      StageFrom(pieces[1..], ranges, q);
      assert forall p :: p in pieces[1..] ==> p in pieces;
      if exists p :: p in pieces && q in StageOne(p, ranges) {
        var p :| p in pieces && q in StageOne(p, ranges);
        if p != pieces[0] {
          assert p in pieces[1..];
        }
      }
    }
  }

  /** Location over one more stage. */
  lemma LocationStep(done: seq<seq<Range>>, ranges: seq<Range>, x: int)
    ensures Location(done + [ranges], x) == Convert(ranges, Location(done, x))
  {
    assert (done + [ranges])[..|done|] == done;
  }

  /** One stage keeps the pieces tracking the seeds. */
  lemma StageTracks(pieces: seq<Range>, seeds: seq<Range>, done: seq<seq<Range>>, ranges: seq<Range>)
    requires Tracks(pieces, seeds, done)
    ensures Tracks(Stage(pieces, ranges), seeds, done + [ranges])
  {
    StageNonEmpty(pieces, ranges);
    StageSound(pieces, seeds, done, ranges);
    StageComplete(pieces, seeds, ranges);
  }

  lemma StageNonEmpty(pieces: seq<Range>, ranges: seq<Range>)
    requires NonEmpty(pieces)
    ensures NonEmpty(Stage(pieces, ranges))
  {
    forall q | q in Stage(pieces, ranges) ensures q.start < q.end {
      StageFrom(pieces, ranges, q);
      var p :| p in pieces && q in StageOne(p, ranges);
      StageOneTracks(p, ranges);
    }
  }

  lemma StageSound(pieces: seq<Range>, seeds: seq<Range>, done: seq<seq<Range>>, ranges: seq<Range>)
    requires NonEmpty(pieces) && Sound(pieces, seeds, done)
    ensures Sound(Stage(pieces, ranges), seeds, done + [ranges])
  {
    forall q, x | q in Stage(pieces, ranges) && Contains(q, x)
      ensures InSeeds(seeds, x) && x + q.diff == Location(done + [ranges], x)
    {
      StageFrom(pieces, ranges, q);
      var p :| p in pieces && q in StageOne(p, ranges);
      StagePointSound(p, seeds, done, ranges, q, x);
    }
  }

  lemma StagePointSound(p: Range, seeds: seq<Range>, done: seq<seq<Range>>, ranges: seq<Range>, q: Range, x: int)
    requires p.start < p.end && q in StageOne(p, ranges) && Contains(q, x)
    requires Contains(p, x) ==> InSeeds(seeds, x) && x + p.diff == Location(done, x)
    ensures InSeeds(seeds, x) && x + q.diff == Location(done + [ranges], x)
  {
    StageOneTracks(p, ranges);
    LocationStep(done, ranges, x);
  }

  lemma StageComplete(pieces: seq<Range>, seeds: seq<Range>, ranges: seq<Range>)
    requires NonEmpty(pieces) && SeedsCovered(pieces, seeds)
    ensures SeedsCovered(Stage(pieces, ranges), seeds)
  {
    forall x | InSeeds(seeds, x) ensures exists q :: q in Stage(pieces, ranges) && Contains(q, x) {
      var p :| p in pieces && Contains(p, x);
      StageOneTracks(p, ranges);
      var q :| q in StageOne(p, ranges) && Contains(q, x);
      StageFrom(pieces, ranges, q);
    }
  }

  /** `part2`: the least location over all seeds of the seed ranges, following whole pieces
      of seeds through the stages with the intended cut. */
  method Part2(seeds: seq<int>, almanac: Almanac) returns (r: int)
    requires |seeds| >= 2 && Complete(almanac)
    requires forall k :: 0 <= k < |seeds| / 2 ==> seeds[2 * k + 1] > 0
    ensures var stages := Stages(almanac, "seed", |almanac|).value;
      (exists x :: InSeeds(SeedRanges(seeds), x) && r == Location(stages, x)) &&
      forall x :: InSeeds(SeedRanges(seeds), x) ==> r <= Location(stages, x)
  {
    ghost var stages := Stages(almanac, "seed", |almanac|).value;
    var initial := SeedRanges(seeds);
    var mappings := initial;
    forall p | p in mappings ensures p.start < p.end {
      var k :| 0 <= k < |mappings| && mappings[k] == p;
    }
    var category := "seed";
    ghost var fuel: nat := |almanac|;
    ghost var done: nat := 0;
    while category != "location"
      invariant done <= |stages| && Stages(almanac, category, fuel) == Some(stages[done..])
      invariant Tracks(mappings, initial, stages[..done])
      decreases fuel
    {
      var entry := almanac[category];
      StagesStep(almanac, category, fuel, stages, done);
      assert stages[..done + 1] == stages[..done] + [entry.1];
      StageTracks(mappings, initial, stages[..done], entry.1);
      mappings := Stage(mappings, entry.1);
      category := entry.0;
      fuel := fuel - 1;
      done := done + 1;
    }
    assert stages[..done] == stages;
    assert initial[0] in initial && Contains(initial[0], initial[0].start);
    assert InSeeds(initial, initial[0].start);
    r := Least(mappings);
    var p :| p in mappings && r == p.start + p.diff;
    assert Contains(p, p.start);
    forall x | InSeeds(initial, x) ensures r <= Location(stages, x) {
      var q :| q in mappings && Contains(q, x);
    }
  }

  /** The `min_by_key` over the final pieces: the least shifted start. */
  method Least(pieces: seq<Range>) returns (r: int)
    requires pieces != []
    ensures exists p :: p in pieces && r == p.start + p.diff
    ensures forall p :: p in pieces ==> r <= p.start + p.diff
  {
    r := pieces[0].start + pieces[0].diff;
    for k := 1 to |pieces|
      invariant exists p :: p in pieces && r == p.start + p.diff
      invariant forall m :: 0 <= m < k ==> r <= pieces[m].start + pieces[m].diff
    {
      if pieces[k].start + pieces[k].diff < r {
        r := pieces[k].start + pieces[k].diff;
      }
    }
  }
}
