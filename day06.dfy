/** Day 6, Wait For It: holding the boat's button for c of a race's `time` milliseconds
    gives it speed c for the remaining time - c milliseconds; a hold time wins when the
    distance covered beats the record. */
module Day06 {
  import opened Text

  /** The distance covered when the button is held for `hold` milliseconds. */
  function Travel(time: nat, hold: nat): nat
    requires hold <= time
  {
    (time - hold) * hold
  }

  predicate Wins(time: nat, record: nat, hold: nat)
    requires hold <= time
  {
    Travel(time, hold) > record
  }

  /** The number of winning hold times in [c, time): the `(0..time).filter(..).count()`
      chain read from `c` on. */
  function CountFrom(time: nat, record: nat, c: nat): (r: nat)
    requires c <= time
    ensures r <= time - c
    decreases time - c
  {
    if c == time then 0
    else (if Wins(time, record, c) then 1 else 0) + CountFrom(time, record, c + 1)
  }

  /** The winning hold times of one race; holding for 0 never wins, so at most time - 1
      hold times can. */
  function Ways(time: nat, record: nat): (r: nat)
    ensures time > 0 ==> r < time
  {
    assert !Wins(time, record, 0);
    CountFrom(time, record, 0)
  }

  /** Winning is symmetric: holding for c travels as far as holding for time - c. */
  lemma Symmetric(time: nat, record: nat, c: nat)
    requires c <= time
    ensures Wins(time, record, c) <==> Wins(time, record, time - c)
  {
  }

  /** Reference definition: the set of winning hold times. */
  function Winners(time: nat, record: nat): set<nat> {
    set c: nat | c < time && Wins(time, record, c)
  }

  lemma {:induction false} CountIsCardinality(time: nat, record: nat, c: nat)
    requires c <= time
    ensures CountFrom(time, record, c) == |set h: nat | c <= h < time && Wins(time, record, h)|
    decreases time - c
  {
    var s := set h: nat | c <= h < time && Wins(time, record, h);
    if c < time {
      CountIsCardinality(time, record, c + 1);
      var s1 := set h: nat | c + 1 <= h < time && Wins(time, record, h);
      if Wins(time, record, c) {
        assert s == s1 + {c};
      } else {
        assert s == s1;
      }
    } else {
      assert s == {};
    }
  }

  /** `Ways` counts exactly the winning hold times. */
  lemma WaysIsCardinality(time: nat, record: nat)
    ensures Ways(time, record) == |Winners(time, record)|
  {
    CountIsCardinality(time, record, 0);
    assert Winners(time, record) == set h: nat | 0 <= h < time && Wins(time, record, h);
  }

  /** Travel grows towards the middle: x travels at least as far as c when c <= x and
      c + x <= time. */
  lemma TravelMonotone(time: nat, c: nat, x: nat)
    requires c <= x && c + x <= time
    ensures Travel(time, c) <= Travel(time, x)
  {
    assert Travel(time, x) - Travel(time, c) == (x - c) * (time - x - c);
  }

  lemma {:induction false} AllWin(time: nat, record: nat, a: nat, b: nat)
    requires a <= b <= time
    requires forall c :: a <= c < b ==> Wins(time, record, c)
    ensures CountFrom(time, record, a) == (b - a) + CountFrom(time, record, b)
    decreases b - a
  {
    if a < b {
      AllWin(time, record, a + 1, b);
    }
  }

  lemma {:induction false} NoneWin(time: nat, record: nat, a: nat, b: nat)
    requires a <= b <= time
    requires forall c :: a <= c < b ==> !Wins(time, record, c)
    ensures CountFrom(time, record, a) == CountFrom(time, record, b)
    decreases b - a
  {
    if a < b {
      NoneWin(time, record, a + 1, b);
    }
  }

  /** The winning hold times are exactly the interval [lo, time - lo] around the middle,
      where lo is the least winning hold time, so there are time - 2 lo + 1 of them. */
  lemma WinnersInterval(time: nat, record: nat, lo: nat)
    requires 1 <= lo && 2 * lo <= time
    requires Wins(time, record, lo) && !Wins(time, record, lo - 1)
    ensures Ways(time, record) == time - 2 * lo + 1
  {
    LoseOutside(time, record, lo);
    WinInside(time, record, lo);
    NoneWin(time, record, 0, lo);
    AllWin(time, record, lo, time - lo + 1);
    NoneWin(time, record, time - lo + 1, time);
  }

  /** Below a losing hold time lo - 1, and symmetrically above time - lo, nothing wins. */
  lemma LoseOutside(time: nat, record: nat, lo: nat)
    requires 1 <= lo && 2 * lo <= time
    requires !Wins(time, record, lo - 1)
    ensures forall c :: 0 <= c < lo ==> !Wins(time, record, c)
    ensures forall c :: time - lo < c < time ==> !Wins(time, record, c)
  {
    forall c | 0 <= c < lo ensures !Wins(time, record, c) {
      TravelMonotone(time, c, lo - 1);
    }
    forall c | time - lo < c < time ensures !Wins(time, record, c) {
      TravelMonotone(time, time - c, lo - 1);
    }
  }

  /** From a winning hold time lo up to its mirror time - lo, everything wins. */
  lemma WinInside(time: nat, record: nat, lo: nat)
    requires 2 * lo <= time
    requires Wins(time, record, lo)
    ensures forall c :: lo <= c <= time - lo ==> Wins(time, record, c)
  {
    forall c | lo <= c <= time - lo ensures Wins(time, record, c) {
      if 2 * c <= time {
        TravelMonotone(time, lo, c);
      } else {
        TravelMonotone(time, lo, time - c);
      }
    }
  }

  /** `part1`: the product of the ways of every race. */
  function Part1(races: seq<(nat, nat)>): (r: nat)
    ensures (exists k :: 0 <= k < |races| && Ways(races[k].0, races[k].1) == 0) ==> r == 0
  {
    if races == [] then 1
    else
      assert forall k :: 1 <= k < |races| ==> races[k] == races[1..][k - 1];
      Ways(races[0].0, races[0].1) * Part1(races[1..])
  }

  /** The decimal numerals of the numbers written one after another. */
  function Digits(numbers: seq<nat>): (s: string)
    ensures forall k :: 0 <= k < |s| ==> IsDigit(s[k])
    ensures |numbers| > 0 ==> |s| > 0
  {
    if numbers == [] then [] else Digits(numbers[..|numbers| - 1]) + Decimal(numbers[|numbers| - 1])
  }

  function Pow10(n: nat): (r: nat)
    ensures r >= 1
  {
    if n == 0 then 1 else 10 * Pow10(n - 1)
  }

  lemma {:induction false} DecimalValueAppend(s: string, t: string)
    requires forall k :: 0 <= k < |s| ==> IsDigit(s[k])
    requires forall k :: 0 <= k < |t| ==> IsDigit(t[k])
    ensures forall k :: 0 <= k < |s + t| ==> IsDigit((s + t)[k])
    ensures DecimalValue(s + t) == DecimalValue(s) * Pow10(|t|) + DecimalValue(t)
    decreases |t|
  {
    if t != [] {
      var t' := t[..|t| - 1];
      assert (s + t)[..|s + t| - 1] == s + t';
      DecimalValueAppend(s, t');
      assert DecimalValue(s + t) == 10 * DecimalValue(s + t') + DigitValue(t[|t| - 1]);
      ShiftLeft(DecimalValue(s), Pow10(|t'|), DecimalValue(t'), DigitValue(t[|t| - 1]));
    } else {
      assert s + t == s;
    }
  }

  /** Appending digit d to a value of the form a * p + b is the arithmetic of the
      inductive step of `DecimalValueAppend`. */
  lemma ShiftLeft(a: int, p: int, b: int, d: int)
    ensures 10 * (a * p + b) + d == a * (10 * p) + (10 * b + d)
  {
    assert 10 * (a * p) == a * (10 * p);
  }

  /** `part2`'s kerning fix: the numbers' digits concatenated and read back, which is the
      previous value shifted left by the next numeral's width plus that number. */
  function Concatenated(numbers: seq<nat>): (r: nat)
    requires |numbers| > 0
    ensures |numbers| > 1 ==> r == Concatenated(numbers[..|numbers| - 1]) * Pow10(|Decimal(numbers[|numbers| - 1])|) + numbers[|numbers| - 1]
  {
    var s := Digits(numbers);
    if |numbers| > 1 then
      DecimalValueAppend(Digits(numbers[..|numbers| - 1]), Decimal(numbers[|numbers| - 1]));
      DecimalValue(s)
    else
      DecimalValue(s)
  }

  /** `part2`: one race whose time and record are the concatenations, so fewer ways
      than that time. */
  function Part2(races: seq<(nat, nat)>): (r: nat)
    requires |races| > 0
    ensures Concatenated(Times(races)) > 0 ==> r < Concatenated(Times(races))
  {
    Ways(Concatenated(Times(races)), Concatenated(Records(races)))
  }

  /** With a single race the kerning changes nothing: both parts give its ways. */
  lemma Part2Single(time: nat, record: nat)
    ensures Part2([(time, record)]) == Part1([(time, record)]) == Ways(time, record)
  {
    var races := [(time, record)];
    assert Times(races) == [time] && Records(races) == [record];
    ConcatenatedOne(time);
    ConcatenatedOne(record);
    assert races[1..] == [];
  }

  function Times(races: seq<(nat, nat)>): (r: seq<nat>)
    ensures |r| == |races|
  {
    seq(|races|, k requires 0 <= k < |races| => races[k].0)
  }

  function Records(races: seq<(nat, nat)>): (r: seq<nat>)
    ensures |r| == |races|
  {
    seq(|races|, k requires 0 <= k < |races| => races[k].1)
  }

  /** The worked example: races (7, 9), (15, 40) and (30, 200) have 4, 8 and 9 ways. */
  lemma SamplePart1()
    ensures Part1([(7, 9), (15, 40), (30, 200)]) == 288
  {
    WinnersInterval(7, 9, 2);
    WinnersInterval(15, 40, 4);
    WinnersInterval(30, 200, 11);
  }

  /** The same races read as one: time 71530 and record 940200, won from 14 to 71516. */
  lemma SamplePart2()
    ensures Part2([(7, 9), (15, 40), (30, 200)]) == 71503
  {
    var races := [(7, 9), (15, 40), (30, 200)];
    assert Times(races) == [7, 15, 30];
    assert Records(races) == [9, 40, 200];
    SampleTime();
    SampleRecord();
    WinnersInterval(71530, 940200, 14);
  }

  /** The example's times 7, 15 and 30 read as one number. */
  lemma SampleTime()
    ensures Concatenated([7, 15, 30]) == 71530
  {
    ConcatenatedOne(7);
    TwoDigits(15);
    TwoDigits(30);
    assert [7, 15][..1] == [7];
    assert Concatenated([7, 15]) == 715;
    assert [7, 15, 30][..2] == [7, 15];
  }

  /** The example's records 9, 40 and 200 read as one number. */
  lemma SampleRecord()
    ensures Concatenated([9, 40, 200]) == 940200
  {
    ConcatenatedOne(9);
    TwoDigits(40);
    ThreeDigits(200);
    assert [9, 40][..1] == [9];
    assert Concatenated([9, 40]) == 940;
    assert [9, 40, 200][..2] == [9, 40];
  }

  /** A single number reads back as itself. */
  lemma ConcatenatedOne(n: nat)
    ensures Concatenated([n]) == n
  {
    assert Digits([n]) == Decimal(n);
  }

  lemma TwoDigits(n: nat)
    requires 10 <= n < 100
    ensures |Decimal(n)| == 2
  {
    assert |Decimal(n / 10)| == 1;
  }

  lemma ThreeDigits(n: nat)
    requires 100 <= n < 1000
    ensures |Decimal(n)| == 3
  {
    TwoDigits(n / 10);
  }
}
