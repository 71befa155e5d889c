/** Grid positions shared by the solvers that walk over a map: a position is a
    (row, column) pair, written (j, i) as in the source. */
module Grid {

  type Pos = (int, int)

  /** The positions of the rectangle with rows top..bottom and columns left..right, both
      ends included. */
  function Box(top: int, bottom: int, left: int, right: int): (r: set<Pos>)
    ensures forall p :: p in r <==> top <= p.0 <= bottom && left <= p.1 <= right
  {
    set j, i | top <= j <= bottom && left <= i <= right :: (j, i)
  }

  function Width(left: int, right: int): nat {
    if left <= right then right - left + 1 else 0
  }

  /** A rectangle holds (number of rows) × (number of columns) positions. */
  lemma {:induction false} BoxSize(top: int, bottom: int, left: int, right: int)
    ensures |Box(top, bottom, left, right)| == Width(top, bottom) * Width(left, right)
    decreases bottom - top
  {
    if top <= bottom {
      BoxSize(top, bottom - 1, left, right);
      RowSize(bottom, left, right);
      var upper, last := Box(top, bottom - 1, left, right), Box(bottom, bottom, left, right);
      assert Box(top, bottom, left, right) == upper + last;
      assert upper * last == {};
      var a, b := Width(top, bottom - 1), Width(left, right);
      assert Width(top, bottom) == a + 1;
      MulSucc(a, b);
    } else {
      assert Box(top, bottom, left, right) == {};
    }
  }

  lemma MulSucc(a: nat, b: nat)
    ensures (a + 1) * b == a * b + b
  {
  }

  lemma {:induction false} RowSize(j: int, left: int, right: int)
    ensures |Box(j, j, left, right)| == Width(left, right)
    decreases right - left
  {
    if left <= right {
      RowSize(j, left, right - 1);
      assert Box(j, j, left, right) == Box(j, j, left, right - 1) + {(j, right)};
    } else {
      assert Box(j, j, left, right) == {};
    }
  }

  /** A set of positions inside a rectangle has at most as many elements. */
  lemma WithinBox(s: set<Pos>, top: int, bottom: int, left: int, right: int)
    requires forall p :: p in s ==> top <= p.0 <= bottom && left <= p.1 <= right
    ensures |s| <= Width(top, bottom) * Width(left, right)
  {
    assert s <= Box(top, bottom, left, right);
    BoxSize(top, bottom, left, right);
    SubsetSize(s, Box(top, bottom, left, right));
  }

  lemma SubsetSize<T>(a: set<T>, b: set<T>)
    requires a <= b
    ensures |a| <= |b|
  {
    assert b == a + (b - a);
  }

  /** p names a character of the text: line p.0, column p.1. */
  predicate InText(lines: seq<string>, p: Pos) {
    0 <= p.0 < |lines| && 0 <= p.1 < |lines[p.0]|
  }

  /** q is one of the eight positions around p. */
  predicate Adjacent(p: Pos, q: Pos) {
    q != p && -1 <= q.0 - p.0 <= 1 && -1 <= q.1 - p.1 <= 1
  }

  /** The eight positions around p. */
  function Around(p: Pos): (r: seq<Pos>)
    ensures |r| == 8
    ensures forall k :: 0 <= k < |r| ==> Adjacent(p, r[k])
  {
    var (j, i) := p;
    [(j - 1, i - 1), (j - 1, i), (j - 1, i + 1), (j, i - 1), (j, i + 1), (j + 1, i - 1), (j + 1, i), (j + 1, i + 1)]
  }

  /** Around lists all eight. */
  lemma AroundComplete(p: Pos, q: Pos)
    requires Adjacent(p, q)
    ensures q in Around(p)
  {
    var (j, i) := p;
    var dj, di := q.0 - j, q.1 - i;
    assert q == (j + dj, i + di);
  }

  /** Row-major order: an earlier row, or the same row and an earlier column. */
  predicate Before(p: Pos, q: Pos) {
    p.0 < q.0 || (p.0 == q.0 && p.1 < q.1)
  }

  predicate Ascending(keys: seq<Pos>) {
    forall a, b :: 0 <= a < b < |keys| ==> Before(keys[a], keys[b])
  }

  /** keys lists the positions of s in row-major order. */
  ghost predicate RowMajor(keys: seq<Pos>, s: set<Pos>) {
    Ascending(keys) && forall p :: p in keys <==> p in s
  }

  /** p is the row-major first element of s. */
  predicate IsFirst(p: Pos, s: set<Pos>) {
    p in s && forall q :: q in s ==> q == p || Before(p, q)
  }

  /** A nonempty set of positions has a row-major first element. */
  lemma {:induction false} First(s: set<Pos>)
    requires s != {}
    ensures exists p :: IsFirst(p, s)
    decreases |s|
  {
    var x :| x in s;
    if s != {x} {
      var rest := s - {x};
      First(rest);
      var m :| IsFirst(m, rest);
      if Before(x, m) {
        forall q | q in s
          ensures q == x || Before(x, q)
        {
          if q != x {
            assert q in rest;
          }
        }
        assert IsFirst(x, s);
      } else {
        forall q | q in s
          ensures q == m || Before(m, q)
        {
          if q != x {
            assert q in rest;
          }
        }
        assert IsFirst(m, s);
      }
    } else {
      assert IsFirst(x, s);
    }
  }

  /** The row-major listing of a set is unique. */
  lemma {:induction false} RowMajorUnique(a: seq<Pos>, b: seq<Pos>, s: set<Pos>)
    requires RowMajor(a, s) && RowMajor(b, s)
    ensures a == b
    decreases |a|
  {
    if b != [] {
      assert b[0] in s;
    }
    if a != [] {
      assert b != [] by {
        assert a[0] in s;
      }
      assert a[0] == b[0] by {
        assert b[0] in s && a[0] in s;
        assert b[0] in a && a[0] in b;
        var m :| 0 <= m < |a| && a[m] == b[0];
        var m' :| 0 <= m' < |b| && b[m'] == a[0];
      }
      var s' := s - {a[0]};
      forall p ensures p in a[1..] <==> p in s' {
        if p in a[1..] {
          var m :| 1 <= m < |a| && a[m] == p;
          assert Before(a[0], a[m]);
        }
      }
      forall p ensures p in b[1..] <==> p in s' {
        if p in b[1..] {
          var m :| 1 <= m < |b| && b[m] == p;
          assert Before(b[0], b[m]);
        }
        if p in s' {
          assert p in b && p != b[0];
        }
      }
      RowMajorUnique(a[1..], b[1..], s');
      assert a == [a[0]] + a[1..] && b == [b[0]] + b[1..];
    }
  }

  /** The row-major listing of a finite set of positions. */
  ghost function Listing(s: set<Pos>): (r: seq<Pos>)
    ensures RowMajor(r, s)
    decreases |s|
  {
    if s == {} then []
    else
      First(s);
      var p :| IsFirst(p, s);
      var rest := Listing(s - {p});
      assert forall a :: 0 <= a < |rest| ==> Before(p, rest[a]) by {
        forall a | 0 <= a < |rest| ensures Before(p, rest[a]) {
          assert rest[a] in s - {p};
        }
      }
      [p] + rest
  }

  /** Sorting a set of positions, as `sorted` over map keys does: repeatedly takes the
      row-major first of the positions not yet listed. */
  method SortedKeys(s: set<Pos>) returns (keys: seq<Pos>)
    ensures keys == Listing(s)
  {
    keys := [];
    var rest := s;
    while rest != {}
      invariant Ascending(keys)
      invariant forall p :: p in s <==> p in keys || p in rest
      invariant forall p :: p in keys ==> p !in rest
      invariant forall p, q :: p in keys && q in rest ==> Before(p, q)
      decreases |rest|
    {
      First(rest);
      var p :| IsFirst(p, rest);
      keys := keys + [p];
      rest := rest - {p};
    }
    RowMajorUnique(keys, Listing(s), s);
  }
}
