/** A stable sort by a total preorder: the model of `sort_by_key` and `sorted_by_key`,
    which keep equal keys in their input order. Elements are inserted one by one, each
    after every element it does not precede. */
module Sorting {

  /** Every two elements are comparable. */
  ghost predicate Total<T(!new)>(le: (T, T) -> bool) {
    forall a, b :: le(a, b) || le(b, a)
  }

  ghost predicate Transitive<T(!new)>(le: (T, T) -> bool) {
    forall a, b, c :: le(a, b) && le(b, c) ==> le(a, c)
  }

  /** Each element comes no later than every element after it. */
  ghost predicate SortedBy<T>(s: seq<T>, le: (T, T) -> bool) {
    forall i, j :: 0 <= i < j < |s| ==> le(s[i], s[j])
  }

  /** `x` placed after the leading elements that come no later than it. */
  function Insert<T>(sorted: seq<T>, x: T, le: (T, T) -> bool): (r: seq<T>)
    ensures |r| == |sorted| + 1
    ensures multiset(r) == multiset(sorted) + multiset{x}
  {
    if sorted == [] then [x]
    else if le(sorted[0], x) then
      assert sorted == [sorted[0]] + sorted[1..];
      [sorted[0]] + Insert(sorted[1..], x, le)
    else [x] + sorted
  }

  /** The stable sort: the prefix sorted, then the last element inserted. */
  function SortBy<T>(s: seq<T>, le: (T, T) -> bool): (r: seq<T>)
    ensures |r| == |s|
    ensures multiset(r) == multiset(s)
  {
    if s == [] then []
    else
      assert s == s[..|s| - 1] + [s[|s| - 1]];
      Insert(SortBy(s[..|s| - 1], le), s[|s| - 1], le)
  }

  /** Inserting into a sorted sequence keeps it sorted. */
  lemma {:induction false} InsertSorted<T(!new)>(sorted: seq<T>, x: T, le: (T, T) -> bool)
    requires Total(le) && Transitive(le) && SortedBy(sorted, le)
    ensures SortedBy(Insert(sorted, x, le), le)
  {
    if sorted != [] && le(sorted[0], x) {
      var rest := sorted[1..];
      assert SortedBy(rest, le);
      InsertSorted(rest, x, le);
      var r := Insert(sorted, x, le);
      assert r == [sorted[0]] + Insert(rest, x, le);
      forall j | 0 < j < |r|
        ensures le(r[0], r[j])
      {
        assert r[j] in multiset(Insert(rest, x, le));
        assert r[j] in multiset(rest) || r[j] == x;
      }
    } else if sorted != [] {
      var r := Insert(sorted, x, le);
      forall j | 0 < j < |r|
        ensures le(r[0], r[j])
      {
        assert le(sorted[0], r[j]);
      }
    }
  }

  /** The stable sort is a sorted permutation of its input. */
  lemma {:induction false} SortBySorted<T(!new)>(s: seq<T>, le: (T, T) -> bool)
    requires Total(le) && Transitive(le)
    ensures SortedBy(SortBy(s, le), le)
  {
    if s != [] {
      SortBySorted(s[..|s| - 1], le);
      InsertSorted(SortBy(s[..|s| - 1], le), s[|s| - 1], le);
    }
  }
  /** The elements of `s` that the preorder cannot tell apart from `y`, in order. */
  function Ties<T>(s: seq<T>, y: T, le: (T, T) -> bool): seq<T> {
    if s == [] then []
    else
      var last := s[|s| - 1];
      Ties(s[..|s| - 1], y, le) + (if le(last, y) && le(y, last) then [last] else [])
  }

  lemma {:induction false} TiesAppend<T>(a: seq<T>, b: seq<T>, y: T, le: (T, T) -> bool)
    ensures Ties(a + b, y, le) == Ties(a, y, le) + Ties(b, y, le)
    decreases |b|
  {
    if b == [] {
      assert a + b == a;
    } else {
      var init := b[..|b| - 1];
      assert (a + b)[..|a + b| - 1] == a + init;
      TiesAppend(a, init, y, le);
    }
  }

  /** The ties of a sequence are those of its first element, if it ties, then those of
      the rest. */
  lemma TiesCons<T>(x: T, s: seq<T>, y: T, le: (T, T) -> bool)
    ensures Ties([x] + s, y, le) == (if le(x, y) && le(y, x) then [x] else []) + Ties(s, y, le)
  {
    TiesAppend([x], s, y, le);
    TiesOne(x, y, le);
  }

  lemma TiesOne<T>(x: T, y: T, le: (T, T) -> bool)
    ensures Ties([x], y, le) == if le(x, y) && le(y, x) then [x] else []
  {
    assert [x][..0] == [];
  }

  /** Elements none of which ties with `y` leave nothing. */
  lemma {:induction false} NoTies<T>(s: seq<T>, y: T, le: (T, T) -> bool)
    requires forall k :: 0 <= k < |s| ==> !(le(s[k], y) && le(y, s[k]))
    ensures Ties(s, y, le) == []
  {
    if s != [] {
      NoTies(s[..|s| - 1], y, le);
    }
  }

  /** When the first element is above `x`, nothing is at or below anything at or below
      `x`. */
  lemma NoneBelow<T(!new)>(sorted: seq<T>, x: T, y: T, le: (T, T) -> bool)
    requires Transitive(le) && SortedBy(sorted, le)
    requires sorted != [] && !le(sorted[0], x) && le(y, x)
    ensures forall k :: 0 <= k < |sorted| ==> !le(sorted[k], y)
  {
    forall k | 0 < k < |sorted|
      ensures le(sorted[0], sorted[k])
    {
    }
  }

  lemma InsertFront<T>(sorted: seq<T>, x: T, le: (T, T) -> bool)
    requires sorted != [] && !le(sorted[0], x)
    ensures Insert(sorted, x, le) == [x] + sorted
  {
  }

  lemma InsertBehind<T>(sorted: seq<T>, x: T, le: (T, T) -> bool)
    requires sorted != [] && le(sorted[0], x)
    ensures Insert(sorted, x, le) == [sorted[0]] + Insert(sorted[1..], x, le)
  {
  }

  /** Inserting `x` puts it behind every element it ties with. */
  lemma {:induction false} InsertTies<T(!new)>(sorted: seq<T>, x: T, y: T, le: (T, T) -> bool)
    requires Transitive(le) && SortedBy(sorted, le)
    ensures Ties(Insert(sorted, x, le), y, le) ==
      Ties(sorted, y, le) + (if le(x, y) && le(y, x) then [x] else [])
  {
    if sorted == [] {
      TiesOne(x, y, le);
    } else if le(sorted[0], x) {
      assert SortedBy(sorted[1..], le);
      InsertTies(sorted[1..], x, y, le);
      InsertTiesBehind(sorted, x, y, le);
    } else {
      InsertTiesFront(sorted, x, y, le);
    }
  }

  lemma Uncons<T>(s: seq<T>)
    requires s != []
    ensures s == [s[0]] + s[1..]
  {
  }

  lemma Associative<T>(a: seq<T>, b: seq<T>, c: seq<T>)
    ensures a + (b + c) == (a + b) + c
  {
  }

  /** The step of `InsertTies` where `x` goes behind the first element. */
  lemma InsertTiesBehind<T>(sorted: seq<T>, x: T, y: T, le: (T, T) -> bool)
    requires sorted != [] && le(sorted[0], x)
    requires Ties(Insert(sorted[1..], x, le), y, le) ==
      Ties(sorted[1..], y, le) + (if le(x, y) && le(y, x) then [x] else [])
    ensures Ties(Insert(sorted, x, le), y, le) ==
      Ties(sorted, y, le) + (if le(x, y) && le(y, x) then [x] else [])
  {
    var rest := sorted[1..];
    var head := if le(sorted[0], y) && le(y, sorted[0]) then [sorted[0]] else [];
    var tail := if le(x, y) && le(y, x) then [x] else [];
    InsertBehind(sorted, x, le);
    TiesCons(sorted[0], Insert(rest, x, le), y, le);
    Uncons(sorted);
    TiesCons(sorted[0], rest, y, le);
    Associative(head, Ties(rest, y, le), tail);
  }

  /** The step of `InsertTies` where `x` goes in front. */
  lemma InsertTiesFront<T(!new)>(sorted: seq<T>, x: T, y: T, le: (T, T) -> bool)
    requires Transitive(le) && SortedBy(sorted, le)
    requires sorted != [] && !le(sorted[0], x)
    ensures Ties(Insert(sorted, x, le), y, le) ==
      Ties(sorted, y, le) + (if le(x, y) && le(y, x) then [x] else [])
  {
    InsertFront(sorted, x, le);
    TiesCons(x, sorted, y, le);
    if le(y, x) {
      NoneBelow(sorted, x, y, le);
      NoTies(sorted, y, le);
    }
  }

  /** The sort is stable: the elements tied with any `y` keep their input order. */
  lemma {:induction false} SortByStable<T(!new)>(s: seq<T>, y: T, le: (T, T) -> bool)
    requires Total(le) && Transitive(le)
    ensures Ties(SortBy(s, le), y, le) == Ties(s, y, le)
  {
    if s != [] {
      var init := s[..|s| - 1];
      SortByStable(init, y, le);
      SortBySorted(init, le);
      InsertTies(SortBy(init, le), s[|s| - 1], y, le);
    }
  }
}
