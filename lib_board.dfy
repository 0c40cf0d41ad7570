/**
 * The board of src/lib.rs: the same sparse live set as the automaton's
 * board, but with a loop-built neighbourhood and a candidate collector that
 * gathers the neighbours of live cells only (live cells are not inserted on
 * their own account, and no state is attached).
 */
module LibBoard {
  import opened Grid
  import opened Life

  /** A board; a point is alive exactly when it is in `living`. */
  class Board {
    var living: set<Point>

    /** A new board has no live cells. */
    constructor ()
      ensures living == {}
      ensures NumLiving() == 0
    {
      living := {};
    }

    /** The state of p: alive exactly when p is in the live set. */
    function GetCell(p: Point): (c: Cell)
      reads this
      ensures c == Alive <==> p in living
    {
      CellOf(living, p)
    }

    /** Make p alive (insert) or dead (remove); no other point changes. */
    method SetCell(p: Point, cell: Cell)
      modifies this
      ensures cell == Alive ==> living == old(living) + {p}
      ensures cell == Dead ==> living == old(living) - {p}
    {
      match cell
      case Alive => living := living + {p};
      case Dead => living := living - {p};
    }

    /** Make every point of ps alive, in order. */
    method AddCells(ps: seq<Point>)
      modifies this
      ensures living == old(living) + (set q | q in ps)
    {
      for i := 0 to |ps|
        invariant living == old(living) + (set q | q in ps[..i])
      {
        SetCell(ps[i], Alive);
        assert ps[..i + 1] == ps[..i] + [ps[i]];
      }
    }

    /** The number of live cells. */
    function NumLiving(): (n: nat)
      reads this
      ensures n == |living|
      ensures n == 0 <==> living == {}
    {
      |living|
    }

    /** The neighbourhood of p, built by inserting p shifted by each offset in turn. */
    method GetNeighbours(p: Point) returns (r: set<Point>)
      ensures r == Neighbours(p)
      ensures forall q :: q in r <==> Adjacent(p, q)
    {
      r := {};
      for i := 0 to |Offsets|
        invariant r == set d | d in Offsets[..i] :: Add(p, d)
      {
        r := r + {Add(p, Offsets[i])};
        assert Offsets[..i + 1] == Offsets[..i] + [Offsets[i]];
      }
      assert Offsets[..|Offsets|] == Offsets;
    }

    /** The live points among p's eight neighbours. */
    method GetLivingNeighbours(p: Point) returns (r: set<Point>)
      ensures forall q :: q in r <==> Adjacent(p, q) && q in living
      ensures r == LivingNeighbours(living, p)
    {
      var ns := GetNeighbours(p);
      r := set q | q in ns && GetCell(q) == Alive;
    }

    /** Every neighbour of every live cell; a live cell is included only when it is itself a neighbour of one. */
    method ToBeChecked() returns (r: set<Point>)
      ensures r == NeighbourUnion(living)
    {
      r := {};
      var todo := living;
      ghost var done: set<Point> := {};
      while todo != {}
        invariant done + todo == living && done !! todo
        invariant r == NeighbourUnion(done)
        decreases |todo|
      {
        var point :| point in todo;
        var ns := GetNeighbours(point);
        ghost var before := r;
        var pending := ns;
        while pending != {}
          invariant pending <= ns
          invariant r == before + (ns - pending)
          decreases |pending|
        {
          var n :| n in pending;
          r := r + {n};
          pending := pending - {n};
        }
        NeighbourUnionInsert(done, point);
        done := done + {point};
        todo := todo - {point};
      }
    }
  }

  /** Adding one live cell adds exactly its neighbourhood to the neighbour union. */
  lemma NeighbourUnionInsert(live: set<Point>, x: Point)
    ensures NeighbourUnion(live + {x}) == NeighbourUnion(live) + Neighbours(x)
  {
    forall q | q in NeighbourUnion(live + {x})
      ensures q in NeighbourUnion(live) + Neighbours(x)
    {
      var p :| p in live + {x} && q in Neighbours(p);
      if p != x {
        assert p in live;
      }
    }
    forall q | q in Neighbours(x)
      ensures q in NeighbourUnion(live + {x})
    {
      assert x in live + {x};
    }
    forall q | q in NeighbourUnion(live)
      ensures q in NeighbourUnion(live + {x})
    {
      var p :| p in live && q in Neighbours(p);
      assert p in live + {x};
    }
  }

  /**
   * The points the automaton's collector evaluates and this one does not are
   * exactly the live cells without a live neighbour.
   */
  lemma MissedCandidates(live: set<Point>)
    ensures Candidates(live) - NeighbourUnion(live)
            == set p | p in live && LivingNeighbours(live, p) == {}
  {
    NeighbourUnionMembers(live);
  }

  /**
   * Evaluating only the neighbour union still yields the whole next
   * generation: every point it misses is an isolated live cell, which dies.
   */
  lemma NeighbourUnionSuffices(live: set<Point>)
    ensures NextGen(live) == set p | p in NeighbourUnion(live) && LivesNext(live, p)
  {
    NeighbourUnionMembers(live);
    forall p | LivesNext(live, p)
      ensures p in NeighbourUnion(live)
    {
      assert LivingNeighbours(live, p) != {};
    }
  }

  /** The twelve points x in 1..4, y in -1..1, row by row. */
  const DominoBlock: set<Point> :=
    {Point(1, 1), Point(2, 1), Point(3, 1), Point(4, 1),
     Point(1, 0), Point(2, 0), Point(3, 0), Point(4, 0),
     Point(1, -1), Point(2, -1), Point(3, -1), Point(4, -1)}

  /** The two-cell board (2, 0), (3, 0) has the twelve points of DominoBlock to check. */
  lemma DominoToBeChecked()
    ensures NeighbourUnion({Point(2, 0), Point(3, 0)}) == DominoBlock
  {
    var a, b := Point(2, 0), Point(3, 0);
    NeighbourUnionPair(a, b);
    DominoNeighbours();
  }

  /**
   * The automaton's collector, which adds the live cells themselves, yields
   * the same twelve points here: each of the two live cells neighbours the other.
   */
  lemma DominoCandidates()
    ensures Candidates({Point(2, 0), Point(3, 0)}) == DominoBlock
    ensures (set pc | pc in Tagged({Point(2, 0), Point(3, 0)}, DominoBlock) :: pc.0) == DominoBlock
  {
    DominoToBeChecked();
    TaggedPoints({Point(2, 0), Point(3, 0)}, DominoBlock);
  }

  /** The neighbour union of a two-cell board is the union of the two neighbourhoods. */
  lemma NeighbourUnionPair(a: Point, b: Point)
    ensures NeighbourUnion({a, b}) == Neighbours(a) + Neighbours(b)
  {
    NeighbourUnionInsert({a}, b);
    NeighbourUnionInsert({}, a);
    assert {a} + {b} == {a, b};
    assert NeighbourUnion({}) == {};
  }

  /** The points adjacent to (2, 0) or (3, 0) are those of DominoBlock. */
  lemma DominoNeighbours()
    ensures Neighbours(Point(2, 0)) + Neighbours(Point(3, 0)) == DominoBlock
  {
    var a, b := Point(2, 0), Point(3, 0);
    var u := Neighbours(a) + Neighbours(b);
    forall q ensures q in u <==> q in DominoBlock {
      if Adjacent(a, q) || Adjacent(b, q) {
        InDominoBlock(q);
      }
      if q in DominoBlock {
        DominoBlockAdjacent(q);
      }
    }
  }

  /** Every point of DominoBlock is adjacent to (2, 0) or to (3, 0). */
  lemma DominoBlockAdjacent(q: Point)
    requires q in DominoBlock
    ensures Adjacent(Point(2, 0), q) || Adjacent(Point(3, 0), q)
  {
  }

  /** Every point with x in 1..4 and y in -1..1 is in DominoBlock. */
  lemma InDominoBlock(q: Point)
    requires 1 <= q.x <= 4 && -1 <= q.y <= 1
    ensures q in DominoBlock
  {
    if q.y == 1 {
      assert q == Point(q.x, 1);
    } else if q.y == 0 {
      assert q == Point(q.x, 0);
    } else {
      assert q == Point(q.x, -1);
    }
  }

  /** The live neighbours of (1, 3) on the board {(0, 4), (2, 2)} are both live cells. */
  lemma DiagonalLivingNeighbours()
    ensures LivingNeighbours({Point(0, 4), Point(2, 2)}, Point(1, 3)) == {Point(0, 4), Point(2, 2)}
  {
  }
}
