/** Day 9, Mirage Maintenance: a history is extrapolated one step forward or backward by
    repeatedly taking differences until they are all equal. */
module Day09 {
  import opened Wrappers

  /** The consecutive differences `b - a` of a history (`tuple_windows`). */
  function Diffs(s: seq<int>): (d: seq<int>)
    ensures |d| == if |s| == 0 then 0 else |s| - 1
  {
    if |s| == 0 then [] else seq(|s| - 1, k requires 0 <= k < |s| - 1 => s[k + 1] - s[k])
  }

  /** `Itertools::all_equal`: true on an empty or one-element sequence. */
  predicate AllEqual(d: seq<int>) {
    forall k :: 0 <= k < |d| ==> d[k] == d[0]
  }

  /** `get_next`, which panics on fewer than two numbers. When the differences are not
      all equal there are at least two of them, so the recursion never reaches the panic. */
  function Next(s: seq<int>): int
    requires |s| >= 2
    decreases |s|
  {
    var d := Diffs(s);
    if AllEqual(d) then s[|s| - 1] + d[0] else s[|s| - 1] + Next(d)
  }

  /** `get_previous`: None exactly when there are fewer than two numbers. */
  function Previous(s: seq<int>): (r: Option<int>)
    ensures r.Some? <==> |s| >= 2
    decreases |s|
  {
    var d := Diffs(s);
    if |s| < 2 then None
    else if AllEqual(d) then Some(s[0] - d[0])
    else
      var p := Previous(d);
      Some(s[0] - p.value)
  }

  /** Reference definition: extrapolation through the whole difference table, down to a
      single number that is continued as a constant. */
  function NextFull(s: seq<int>): int
    requires |s| >= 1
    decreases |s|
  {
    if |s| == 1 then s[0] else s[|s| - 1] + NextFull(Diffs(s))
  }

  function PreviousFull(s: seq<int>): int
    requires |s| >= 1
    decreases |s|
  {
    if |s| == 1 then s[0] else s[0] - PreviousFull(Diffs(s))
  }

  /** A constant sequence continues with its constant. */
  lemma {:induction false} NextFullConstant(s: seq<int>)
    requires |s| >= 1 && AllEqual(s)
    ensures NextFull(s) == s[0]
    ensures PreviousFull(s) == s[0]
    decreases |s|
  {
    if |s| > 1 {
      var d := Diffs(s);
      assert forall k :: 0 <= k < |d| ==> d[k] == 0;
      NextFullConstant(d);
    }
  }

  /** Stopping as soon as the differences are equal gives the full-table answer. */
  lemma {:induction false} NextIsFull(s: seq<int>)
    requires |s| >= 2
    ensures Next(s) == NextFull(s)
    decreases |s|
  {
    var d := Diffs(s);
    if AllEqual(d) {
      NextFullConstant(d);
    } else {
      NextIsFull(d);
    }
  }

  lemma {:induction false} PreviousIsFull(s: seq<int>)
    requires |s| >= 2
    ensures Previous(s) == Some(PreviousFull(s))
    decreases |s|
  {
    var d := Diffs(s);
    assert PreviousFull(s) == s[0] - PreviousFull(d);
    if AllEqual(d) {
      NextFullConstant(d);
      assert Previous(s) == Some(s[0] - d[0]);
    } else {
      assert |d| >= 2;
      PreviousIsFull(d);
      assert Previous(s) == Some(s[0] - Previous(d).value);
    }
  }

  function Reverse(s: seq<int>): seq<int> {
    seq(|s|, k requires 0 <= k < |s| => s[|s| - 1 - k])
  }

  function Negate(s: seq<int>): seq<int> {
    seq(|s|, k requires 0 <= k < |s| => -s[k])
  }

  lemma {:induction false} NextFullNegate(s: seq<int>)
    requires |s| >= 1
    ensures NextFull(Negate(s)) == -NextFull(s)
    decreases |s|
  {
    if |s| > 1 {
      assert Diffs(Negate(s)) == Negate(Diffs(s));
      NextFullNegate(Diffs(s));
    }
  }

  /** Extrapolating backwards is extrapolating the reversed history forwards. */
  lemma {:induction false} ReverseDuality(s: seq<int>)
    requires |s| >= 1
    ensures NextFull(Reverse(s)) == PreviousFull(s)
    decreases |s|
  {
    if |s| > 1 {
      var d := Diffs(s);
      var n := |s|;
      assert Diffs(Reverse(s)) == Negate(Reverse(d)) by {
        forall k | 0 <= k < n - 1
          ensures Diffs(Reverse(s))[k] == Negate(Reverse(d))[k]
        {
          assert Reverse(d)[k] == d[n - 2 - k] == s[n - 1 - k] - s[n - 2 - k];
        }
      }
      NextFullNegate(Reverse(d));
      ReverseDuality(d);
    }
  }

  lemma NextReversed(s: seq<int>)
    requires |s| >= 2
    ensures Previous(s) == Some(Next(Reverse(s)))
  {
    NextIsFull(Reverse(s));
    PreviousIsFull(s);
    ReverseDuality(s);
  }

  /** An arithmetic progression continues with its common difference. */
  lemma Progression(s: seq<int>, c: int)
    requires |s| >= 2
    requires forall k :: 0 <= k < |s| - 1 ==> s[k + 1] - s[k] == c
    ensures Next(s) == s[|s| - 1] + c
    ensures Previous(s) == Some(s[0] - c)
  {
    var d := Diffs(s);
    assert d[0] == c;
    assert AllEqual(d);
  }

  predicate LongEnough(histories: seq<seq<int>>) {
    forall i :: 0 <= i < |histories| ==> |histories[i]| >= 2
  }

  /** `part1`: the sum of the next values. */
  function Part1(histories: seq<seq<int>>): int
    requires LongEnough(histories)
  {
    if histories == [] then 0 else Next(histories[0]) + Part1(histories[1..])
  }

  /** `part2`: the `Option` sum of the previous values, None if any history is too short. */
  function Part2(histories: seq<seq<int>>): (r: Option<int>)
    ensures r.Some? <==> LongEnough(histories)
  {
    if histories == [] then Some(0)
    else
      var p := Previous(histories[0]);
      var rest := Part2(histories[1..]);
      assert LongEnough(histories) <==> |histories[0]| >= 2 && LongEnough(histories[1..]) by {
        assert forall i :: 1 <= i < |histories| ==> histories[i] == histories[1..][i - 1];
      }
      if p.Some? && rest.Some? then Some(p.value + rest.value) else None
  }

  /** Every history reversed. */
  function ReverseAll(histories: seq<seq<int>>): (r: seq<seq<int>>)
    ensures |r| == |histories| && forall k :: 0 <= k < |r| ==> r[k] == Reverse(histories[k])
    ensures forall k :: 0 <= k < |r| ==> |r[k]| == |histories[k]|
  {
    seq(|histories|, k requires 0 <= k < |histories| => Reverse(histories[k]))
  }

  /** `part2` is `part1` of the reversed histories: extrapolating every history backwards
      and adding up is extrapolating the reversed ones forwards. */
  lemma {:induction false} Part2IsReversedPart1(histories: seq<seq<int>>)
    requires LongEnough(histories)
    ensures LongEnough(ReverseAll(histories))
    ensures Part2(histories) == Some(Part1(ReverseAll(histories)))
  {
    var r := ReverseAll(histories);
    if histories != [] {
      var rest := histories[1..];
      assert LongEnough(rest) by {
        assert forall i :: 0 <= i < |rest| ==> rest[i] == histories[i + 1];
      }
      Part2IsReversedPart1(rest);
      NextReversed(histories[0]);
      assert r[0] == Reverse(histories[0]) && r[1..] == ReverseAll(rest);
      Part1Cons(r);
      Part2Cons(histories);
      assert Part2(histories).value == Part1(r);
      assert Part2(histories) == Some(Part1(r));
    } else {
      assert r == [];
      assert Part2(histories) == Some(Part1(r));
    }
  }

  /** Histories long enough to extrapolate stay so when put together. */
  lemma LongEnoughAppend(a: seq<seq<int>>, b: seq<seq<int>>)
    requires LongEnough(a) && LongEnough(b)
    ensures LongEnough(a + b)
  {
    var ab := a + b;
    forall i | 0 <= i < |ab| ensures |ab[i]| >= 2 {
      if i < |a| {
        assert ab[i] == a[i];
      } else {
        assert ab[i] == b[i - |a|];
      }
    }
  }

  /** Two lists of histories with the same first history: their sums differ as their tails do. */
  lemma SumStep(a: seq<seq<int>>, ab: seq<seq<int>>, tail: seq<seq<int>>)
    requires a != [] && ab != [] && ab[0] == a[0] && ab[1..] == tail
    requires LongEnough(a) && LongEnough(ab)
    ensures LongEnough(a[1..]) && LongEnough(tail)
    ensures Part1(ab) - Part1(tail) == Part1(a) - Part1(a[1..])
  {
    Part1Cons(a);
    Part1Cons(ab);
  }

  /** The sum of `part1` splits over any split of the histories. */
  lemma {:induction false} Part1Append(a: seq<seq<int>>, b: seq<seq<int>>)
    requires LongEnough(a) && LongEnough(b)
    ensures LongEnough(a + b)
    ensures Part1(a + b) == Part1(a) + Part1(b)
  {
    var ab := a + b;
    LongEnoughAppend(a, b);
    if a != [] {
      var t := a[1..];
      assert ab[0] == a[0] && ab[1..] == t + b;
      Part1Append(t, b);
      SumStep(a, ab, t + b);
    }
    else {
      assert ab == b;
    }
  }

  lemma Part1Cons(histories: seq<seq<int>>)
    requires histories != [] && LongEnough(histories)
    ensures LongEnough(histories[1..])
    ensures Part1(histories) == Next(histories[0]) + Part1(histories[1..])
  {
  }

  lemma Part2Cons(histories: seq<seq<int>>)
    requires histories != [] && LongEnough(histories)
    ensures LongEnough(histories[1..])
    ensures Part2(histories).value == Previous(histories[0]).value + Part2(histories[1..]).value
  {
    assert LongEnough(histories[1..]) by {
      assert forall i :: 1 <= i < |histories| ==> histories[i] == histories[1..][i - 1];
    }
  }

  lemma SampleFirst()
    ensures Next([0, 3, 6, 9, 12, 15]) == 18
    ensures Previous([0, 3, 6, 9, 12, 15]) == Some(-3)
  {
    Progression([0, 3, 6, 9, 12, 15], 3);
  }

  lemma SampleSecond()
    ensures Next([1, 3, 6, 10, 15, 21]) == 28
    ensures Previous([1, 3, 6, 10, 15, 21]) == Some(0)
  {
    assert Diffs([1, 3, 6, 10, 15, 21]) == [2, 3, 4, 5, 6];
    assert [2, 3, 4, 5, 6][1] != [2, 3, 4, 5, 6][0];
    Progression([2, 3, 4, 5, 6], 1);
  }

  lemma SampleThird()
    ensures Next([10, 13, 16, 21, 30, 45]) == 68
    ensures Previous([10, 13, 16, 21, 30, 45]) == Some(5)
  {
    assert Diffs([10, 13, 16, 21, 30, 45]) == [3, 3, 5, 9, 15];
    assert [3, 3, 5, 9, 15][2] != [3, 3, 5, 9, 15][0];
    assert Diffs([3, 3, 5, 9, 15]) == [0, 2, 4, 6];
    assert [0, 2, 4, 6][1] != [0, 2, 4, 6][0];
    Progression([0, 2, 4, 6], 2);
  }

  /** The worked example forwards: 18 + 28 + 68 = 114. */
  lemma SamplePart1()
    ensures Part1([[0, 3, 6, 9, 12, 15], [1, 3, 6, 10, 15, 21], [10, 13, 16, 21, 30, 45]]) == 114
  {
    SampleFirst();
    SampleSecond();
    SampleThird();
    var h := [[0, 3, 6, 9, 12, 15], [1, 3, 6, 10, 15, 21], [10, 13, 16, 21, 30, 45]];
    var t := [[1, 3, 6, 10, 15, 21], [10, 13, 16, 21, 30, 45]];
    var u := [[10, 13, 16, 21, 30, 45]];
    assert h[1..] == t && t[1..] == u && u[1..] == [];
    assert Part1(u) == 68;
    assert Part1(t) == 28 + 68;
  }

  /** The worked example backwards: -3 + 0 + 5 = 2. */
  lemma SamplePart2()
    ensures Part2([[0, 3, 6, 9, 12, 15], [1, 3, 6, 10, 15, 21], [10, 13, 16, 21, 30, 45]]) == Some(2)
  {
    SampleFirst();
    SampleLastTwo();
    var h := [[0, 3, 6, 9, 12, 15], [1, 3, 6, 10, 15, 21], [10, 13, 16, 21, 30, 45]];
    assert h[1..] == [[1, 3, 6, 10, 15, 21], [10, 13, 16, 21, 30, 45]];
  }

  lemma SampleLastTwo()
    ensures Part2([[1, 3, 6, 10, 15, 21], [10, 13, 16, 21, 30, 45]]) == Some(5)
  {
    SampleSecond();
    SampleLast();
    var t := [[1, 3, 6, 10, 15, 21], [10, 13, 16, 21, 30, 45]];
    assert t[1..] == [[10, 13, 16, 21, 30, 45]];
  }

  lemma SampleLast()
    ensures Part2([[10, 13, 16, 21, 30, 45]]) == Some(5)
  {
    SampleThird();
    var u := [[10, 13, 16, 21, 30, 45]];
    assert u[1..] == [];
  }
}
