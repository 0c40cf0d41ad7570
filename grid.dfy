/** Points, cell states and the Moore neighbourhood shared by both boards. */
module Grid {

  /** A cell address on the unbounded integer grid. */
  datatype Point = Point(x: int, y: int)

  /** The state of one cell; a board stores only the live ones. */
  datatype Cell = Dead | Alive

  /** Component-wise addition of two points (`Point + Point`). */
  function Add(a: Point, b: Point): Point
  {
    Point(a.x + b.x, a.y + b.y)
  }

  /** Point addition is commutative and associative, the origin adds nothing, and an offset can be taken back. */
  lemma AddLaws(a: Point, b: Point, c: Point)
    ensures Add(a, b) == Add(b, a)
    ensures Add(Add(a, b), c) == Add(a, Add(b, c))
    ensures Add(a, Point(0, 0)) == a
    ensures Add(Add(a, b), Point(-b.x, -b.y)) == a
  {
  }

  /** The eight neighbour offsets, row by row, in the order the source lists them. */
  const Offsets: seq<Point> := [
    Point(-1, -1), Point(0, -1), Point(1, -1),
    Point(-1, 0),                Point(1, 0),
    Point(-1, 1),  Point(0, 1),  Point(1, 1)
  ]

  /** True when q lies at Chebyshev distance exactly 1 from p. */
  predicate Adjacent(p: Point, q: Point)
  {
    q != p && -1 <= q.x - p.x <= 1 && -1 <= q.y - p.y <= 1
  }

  /** The offset from p to q, when q is adjacent to p, is one of the eight offsets. */
  lemma AdjacentOffset(p: Point, q: Point)
    requires Adjacent(p, q)
    ensures Point(q.x - p.x, q.y - p.y) in Offsets
  {
    var d := Point(q.x - p.x, q.y - p.y);
    if d.y == -1 {
      if d.x == -1 { assert d == Offsets[0]; }
      else if d.x == 0 { assert d == Offsets[1]; }
      else { assert d == Offsets[2]; }
    } else if d.y == 0 {
      if d.x == -1 { assert d == Offsets[3]; }
      else { assert d == Offsets[4]; }
    } else {
      if d.x == -1 { assert d == Offsets[5]; }
      else if d.x == 0 { assert d == Offsets[6]; }
      else { assert d == Offsets[7]; }
    }
  }

  /** The neighbours of p: p shifted by each of the eight offsets. */
  function Neighbours(p: Point): (r: set<Point>)
    ensures forall q :: q in r <==> Adjacent(p, q)
  {
    var r := set d | d in Offsets :: Add(p, d);
    assert forall q :: Adjacent(p, q) ==> q in r by {
      forall q | Adjacent(p, q) ensures q in r {
        AdjacentOffset(p, q);
        assert Add(p, Point(q.x - p.x, q.y - p.y)) == q;
      }
    }
    r
  }

  /** The eight neighbours of p as a sequence, in offset order. */
  function Shifted(p: Point): seq<Point>
  {
    seq(8, i requires 0 <= i < 8 => Add(p, Offsets[i]))
  }

  /** A sequence without repetitions has as many distinct elements as entries. */
  lemma {:induction false} DistinctCard(s: seq<Point>)
    requires forall i, j :: 0 <= i < j < |s| ==> s[i] != s[j]
    ensures |set q | q in s| == |s|
  {
    if s != [] {
      DistinctCard(s[1..]);
      assert (set q | q in s) == {s[0]} + (set q | q in s[1..]);
    }
  }

  /** The neighbourhood is exactly eight distinct points, none of them p itself. */
  lemma NeighbourhoodSize(p: Point)
    ensures |Neighbours(p)| == 8
    ensures p !in Neighbours(p)
  {
    var s := Shifted(p);
    assert forall i, j :: 0 <= i < j < |s| ==> s[i] != s[j];
    DistinctCard(s);
    forall q ensures q in Neighbours(p) <==> q in s {
      if q in s {
        var i :| 0 <= i < 8 && s[i] == q;
        assert Offsets[i] in Offsets;
      }
      if q in Neighbours(p) {
        var d :| d in Offsets && q == Add(p, d);
        var i :| 0 <= i < 8 && Offsets[i] == d;
        assert s[i] == q;
      }
    }
    assert Neighbours(p) == set q | q in s;
  }

  /** The state of p on a board whose live set is `live`. */
  function CellOf(live: set<Point>, p: Point): Cell
  {
    if p in live then Alive else Dead
  }

  /** The live members of p's neighbourhood. */
  function LivingNeighbours(live: set<Point>, p: Point): (r: set<Point>)
    ensures forall q :: q in r <==> Adjacent(p, q) && q in live
    ensures |r| <= 8
  {
    NeighbourhoodSize(p);
    var r := set q | q in Neighbours(p) && CellOf(live, q) == Alive;
    assert r <= Neighbours(p);
    SubsetCard(r, Neighbours(p));
    r
  }

  lemma SubsetCard<T>(a: set<T>, b: set<T>)
    requires a <= b
    ensures |a| <= |b|
  {
    assert b == a + (b - a);
  }
}
