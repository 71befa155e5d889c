/** Day 12, Hot Springs: a row of springs is '.', '#' or '?', and its arrangements are the
    ways to turn exactly the missing number of '?' into '#' so that the runs of '#' have the
    listed lengths. The solver enumerates every such choice of positions. */
module Day12 {

  /** `positions(|c| c == '?')` from index i on. */
  function UnknownsFrom(springs: string, i: nat): (r: seq<nat>)
    requires i <= |springs|
    ensures forall k :: 0 <= k < |r| ==> i <= r[k] < |springs| && springs[r[k]] == '?'
    ensures forall p :: i <= p < |springs| && springs[p] == '?' ==> p in r
    ensures Increasing(r)
    decreases |springs| - i
  {
    if i == |springs| then []
    else
      var rest := UnknownsFrom(springs, i + 1);
      if springs[i] == '?' then [i] + rest else rest
  }

  function Unknowns(springs: string): seq<nat> {
    UnknownsFrom(springs, 0)
  }

  predicate Increasing(s: seq<nat>) {
    forall a, b :: 0 <= a < b < |s| ==> s[a] < s[b]
  }

  function Binomial(n: nat, k: nat): nat {
    if k == 0 then 1 else if n == 0 then 0 else Binomial(n - 1, k - 1) + Binomial(n - 1, k)
  }

  /** `Itertools::combinations`: the k-element subsequences of `items` in lexicographic
      order of positions; those holding the first item come first. */
  function Combinations(items: seq<nat>, k: nat): (r: seq<seq<nat>>)
    ensures |r| == Binomial(|items|, k)
    decreases |items|
  {
    if k == 0 then [[]]
    else if items == [] then []
    else Prepend(items[0], Combinations(items[1..], k - 1)) + Combinations(items[1..], k)
  }

  /** Every combination has k elements, all taken from `items`, in their order. */
  lemma {:induction false} CombinationsSound(items: seq<nat>, k: nat, n: nat)
    requires n < |Combinations(items, k)|
    ensures |Combinations(items, k)[n]| == k
    ensures forall x :: x in Combinations(items, k)[n] ==> x in items
    ensures Increasing(items) ==> Increasing(Combinations(items, k)[n])
    decreases |items|
  {
    if k != 0 && items != [] {
      var head := items[0];
      var tail := items[1..];
      var with := Combinations(tail, k - 1);
      var without := Combinations(tail, k);
      var all := Prepend(head, with) + without;
      assert Combinations(items, k) == all;
      assert forall x :: x in tail ==> x in items;
      if n < |with| {
        CombinationsSound(tail, k - 1, n);
        assert all[n] == [head] + with[n];
        if Increasing(items) {
          HeadBelowTail(items);
          ConsIncreasing(head, with[n]);
        }
      } else {
        CombinationsSound(tail, k, n - |with|);
        assert all[n] == without[n - |with|];
        if Increasing(items) {
          HeadBelowTail(items);
        }
      }
    }
  }

  lemma HeadBelowTail(items: seq<nat>)
    requires items != [] && Increasing(items)
    ensures Increasing(items[1..])
    ensures forall x :: x in items[1..] ==> items[0] < x
  {
    forall x | x in items[1..] ensures items[0] < x {
      var b :| 0 <= b < |items[1..]| && items[1..][b] == x;
      assert items[b + 1] == x;
    }
  }

  lemma ConsIncreasing(head: nat, c: seq<nat>)
    requires Increasing(c)
    requires forall x :: x in c ==> head < x
    ensures Increasing([head] + c)
  {
    var s := [head] + c;
    forall a, b | 0 <= a < b < |s| ensures s[a] < s[b] {
      assert s[b] == c[b - 1];
      if a > 0 {
        assert s[a] == c[a - 1];
      } else {
        assert c[b - 1] in c;
      }
    }
  }

  function Prepend(x: nat, cs: seq<seq<nat>>): (r: seq<seq<nat>>)
    ensures |r| == |cs|
    ensures forall k :: 0 <= k < |cs| ==> r[k] == [x] + cs[k]
  {
    seq(|cs|, k requires 0 <= k < |cs| => [x] + cs[k])
  }

  /** The row with the chosen positions marked '#' (`fix.contains(&i)`). */
  function Fill(springs: string, fix: seq<nat>): (r: string)
    ensures |r| == |springs|
    ensures forall i :: 0 <= i < |r| ==> r[i] == if i in fix then '#' else springs[i]
  {
    seq(|springs|, i requires 0 <= i < |springs| => if i in fix then '#' else springs[i])
  }

  /** How many '#' the row starts with. */
  function Lead(s: string): (n: nat)
    ensures n <= |s|
    ensures forall i :: 0 <= i < n ==> s[i] == '#'
    ensures n < |s| ==> s[n] != '#'
  {
    if s != [] && s[0] == '#' then 1 + Lead(s[1..]) else 0
  }

  /** `dedup_with_count` keeping the '#' groups: the lengths of the maximal runs of '#',
      left to right. */
  function Runs(s: string): (r: seq<nat>)
    ensures forall k :: 0 <= k < |r| ==> r[k] >= 1
    decreases |s|
  {
    if s == [] then []
    else if s[0] != '#' then Runs(s[1..])
    else
      var n := Lead(s);
      [n] + Runs(s[n..])
  }

  function Sum(s: seq<nat>): nat {
    if s == [] then 0 else s[0] + Sum(s[1..])
  }

  function CountDamaged(s: string): nat {
    if s == [] then 0 else (if s[0] == '#' then 1 else 0) + CountDamaged(s[1..])
  }

  lemma {:induction false} CountDamagedAppend(a: string, b: string)
    ensures CountDamaged(a + b) == CountDamaged(a) + CountDamaged(b)
  {
    if a != [] {
      assert (a + b)[1..] == a[1..] + b;
      CountDamagedAppend(a[1..], b);
    } else {
      assert a + b == b;
    }
  }

  lemma {:induction false} LeadCount(s: string)
    ensures CountDamaged(s[..Lead(s)]) == Lead(s)
    decreases |s|
  {
    if s != [] && s[0] == '#' {
      LeadCount(s[1..]);
      assert s[..Lead(s)] == [s[0]] + s[1..][..Lead(s[1..])];
    }
  }

  /** The runs account for every '#' of the row. */
  lemma {:induction false} RunsSum(s: string)
    ensures Sum(Runs(s)) == CountDamaged(s)
    decreases |s|
  {
    if s != [] {
      if s[0] != '#' {
        RunsSum(s[1..]);
      } else {
        var n := Lead(s);
        RunsSum(s[n..]);
        assert s == s[..n] + s[n..];
        CountDamagedAppend(s[..n], s[n..]);
        LeadCount(s);
      }
    }
  }

  /** Marking k distinct '?' positions adds exactly k damaged springs to the known ones. */
  lemma FillCount(springs: string, fix: seq<nat>)
    requires forall x :: x in fix ==> x < |springs| && springs[x] == '?'
    requires Increasing(fix)
    ensures CountDamaged(Fill(springs, fix)) == CountDamaged(springs) + |fix|
  {
    var f := Fill(springs, fix);
    FillCountFrom(springs, fix, 0);
    AboveAll(fix);
    CountFromIsCount(f, 0);
    CountFromIsCount(springs, 0);
    assert f[0..] == f && springs[0..] == springs;
  }

  function CountFrom(s: string, i: nat): nat
    requires i <= |s|
    decreases |s| - i
  {
    if i == |s| then 0 else (if s[i] == '#' then 1 else 0) + CountFrom(s, i + 1)
  }

  lemma {:induction false} CountFromIsCount(s: string, i: nat)
    requires i <= |s|
    ensures CountFrom(s, i) == CountDamaged(s[i..])
    decreases |s| - i
  {
    if i < |s| {
      CountFromIsCount(s, i + 1);
      assert s[i..][1..] == s[i + 1..];
    }
  }

  function Above(fix: seq<nat>, i: nat): nat {
    if fix == [] then 0 else (if fix[0] >= i then 1 else 0) + Above(fix[1..], i)
  }

  lemma {:induction false} AboveStep(fix: seq<nat>, i: nat)
    requires Increasing(fix)
    ensures Above(fix, i) == Above(fix, i + 1) + (if i in fix then 1 else 0)
  {
    if fix != [] {
      AboveStep(fix[1..], i);
      if fix[0] == i {
        assert i !in fix[1..];
      }
    }
  }

  lemma {:induction false} AboveEnd(fix: seq<nat>, n: nat)
    requires forall x :: x in fix ==> x < n
    ensures Above(fix, n) == 0
  {
    if fix != [] {
      assert fix[0] in fix;
      assert forall x :: x in fix[1..] ==> x in fix;
      AboveEnd(fix[1..], n);
    }
  }

  lemma {:induction false} AboveAll(fix: seq<nat>)
    ensures Above(fix, 0) == |fix|
  {
    if fix != [] {
      AboveAll(fix[1..]);
    }
  }

  lemma {:induction false} FillCountFrom(springs: string, fix: seq<nat>, i: nat)
    requires forall x :: x in fix ==> x < |springs| && springs[x] == '?'
    requires Increasing(fix)
    requires i <= |springs|
    ensures CountFrom(Fill(springs, fix), i) == CountFrom(springs, i) + Above(fix, i)
    decreases |springs| - i
  {
    var f := Fill(springs, fix);
    if i == |springs| {
      AboveEnd(fix, i);
    } else {
      FillCountFrom(springs, fix, i + 1);
      AboveStep(fix, i);
    }
  }

  /** A candidate is valid when its '#' runs are exactly the damaged groups. */
  predicate Valid(springs: string, groups: seq<nat>, fix: seq<nat>) {
    Runs(Fill(springs, fix)) == groups
  }

  function CountValid(springs: string, groups: seq<nat>, cs: seq<seq<nat>>): (r: nat)
    ensures r <= |cs|
  {
    if cs == [] then 0 else (if Valid(springs, groups, cs[0]) then 1 else 0) + CountValid(springs, groups, cs[1..])
  }

  /** One row of `part1`: the valid choices among all combinations of the missing number
      of '?' positions. The subtraction is unsigned in the source, so the groups must add
      up to at least the known '#'. */
  function Arrangements(springs: string, groups: seq<nat>): (r: nat)
    requires Sum(groups) >= CountDamaged(springs)
    ensures r <= Binomial(|Unknowns(springs)|, Sum(groups) - CountDamaged(springs))
  {
    var k: nat := Sum(groups) - CountDamaged(springs);
    var cs := Combinations(Unknowns(springs), k);
    assert |cs| == Binomial(|Unknowns(springs)|, k);
    CountValid(springs, groups, cs)
  }

  /** Every candidate has the right number of '#' in total: the known ones plus the
      marked ones. */
  lemma CandidateCount(springs: string, groups: seq<nat>, fix: seq<nat>)
    requires Sum(groups) >= CountDamaged(springs)
    requires fix in Combinations(Unknowns(springs), Sum(groups) - CountDamaged(springs))
    ensures CountDamaged(Fill(springs, fix)) == Sum(groups)
  {
    var items := Unknowns(springs);
    var k := Sum(groups) - CountDamaged(springs);
    var combos := Combinations(items, k);
    var n :| 0 <= n < |combos| && combos[n] == fix;
    CombinationsSound(items, k, n);
    assert |fix| == k;
    assert forall x :: x in fix ==> x < |springs| && springs[x] == '?' by {
      forall x | x in fix
        ensures x < |springs| && springs[x] == '?'
      {
        assert x in items;
      }
    }
    FillCount(springs, fix);
  }

  predicate Feasible(rows: seq<(string, seq<nat>)>) {
    forall k :: 0 <= k < |rows| ==> Sum(rows[k].1) >= CountDamaged(rows[k].0)
  }

  /** `part1`: the sum of the rows' arrangement counts, at least each row's own. */
  function Part1(rows: seq<(string, seq<nat>)>): (r: nat)
    requires Feasible(rows)
    ensures forall k :: 0 <= k < |rows| ==> Arrangements(rows[k].0, rows[k].1) <= r
  {
    if rows == [] then 0
    else
      var rest := Part1(rows[1..]);
      assert forall k :: 1 <= k < |rows| ==> rows[k] == rows[1..][k - 1];
      Arrangements(rows[0].0, rows[0].1) + rest
  }

  /** The counts of two blocks of rows add up. */
  lemma {:induction false} Part1Append(a: seq<(string, seq<nat>)>, b: seq<(string, seq<nat>)>)
    requires Feasible(a) && Feasible(b)
    ensures Feasible(a + b)
    ensures Part1(a + b) == Part1(a) + Part1(b)
  {
    if a == [] {
      assert a + b == b;
    } else {
      assert (a + b)[1..] == a[1..] + b;
      assert Feasible(a[1..]);
      Part1Append(a[1..], b);
    }
  }
}
