/**
 * The sparse board and the generation step of src/automaton.rs: a board is
 * the set of its live points, and the automaton owns one board and advances
 * it one generation at a time.
 */
module Automaton {
  import opened Grid
  import opened Life

  /** A board; a point is alive exactly when it is in `living`. */
  class Board {
    var living: set<Point>

    /** A new board has no live cells. */
    constructor ()
      ensures living == {}
      ensures NumLiving() == 0
    {
      living := {};
    }

    /** The state of p: alive exactly when p is in the live set, for every point. */
    function GetCell(p: Point): (c: Cell)
      reads this
      ensures c == Alive <==> p in living
    {
      CellOf(living, p)
    }

    /** Make p alive (insert) or dead (remove); no other point changes. */
    method SetCell(p: Point, cell: Cell)
      modifies this
      ensures cell == Alive ==> living == old(living) + {p}
      ensures cell == Dead ==> living == old(living) - {p}
    {
      match cell
      case Alive => living := living + {p};
      case Dead => living := living - {p};
    }

    /** Make every point of ps alive, in order. */
    method AddCells(ps: seq<Point>)
      modifies this
      ensures living == old(living) + (set q | q in ps)
    {
      for i := 0 to |ps|
        invariant living == old(living) + (set q | q in ps[..i])
      {
        SetCell(ps[i], Alive);
        assert ps[..i + 1] == ps[..i] + [ps[i]];
      }
    }

    /** Toggle p: alive becomes dead and dead becomes alive; no other point changes. */
    method FlipCell(p: Point)
      modifies this
      ensures living == SymDiff(old(living), {p})
      ensures GetCell(p) != old(GetCell(p))
    {
      match GetCell(p)
      case Alive => SetCell(p, Dead);
      case Dead => SetCell(p, Alive);
    }

    /** Toggle every point of `flips` once; points outside `flips` keep their state. */
    method FlipAll(flips: set<Point>)
      modifies this
      ensures forall p :: p in living <==> (p in old(living) <==> p !in flips)
    {
      var rest := flips;
      ghost var flipped: set<Point> := {};
      while rest != {}
        invariant rest <= flips && flipped == flips - rest
        invariant forall p :: p in living <==> (p in old(living) <==> p !in flipped)
        decreases |rest|
      {
        var point :| point in rest;
        FlipCell(point);
        rest := rest - {point};
        flipped := flipped + {point};
      }
    }

    /** The number of live cells. */
    function NumLiving(): (n: nat)
      reads this
      ensures n == |living|
      ensures n == 0 <==> living == {}
    {
      |living|
    }

    /** The live points among p's eight neighbours. */
    function GetLivingNeighbours(p: Point): (r: set<Point>)
      reads this
      ensures r == LivingNeighbours(living, p)
      ensures |r| <= 8
    {
      var r := set q | q in Neighbours(p) && GetCell(q) == Alive;
      assert r == LivingNeighbours(living, p);
      r
    }

    /**
     * Every live cell and every neighbour of a live cell, each paired with
     * its current state; a point therefore never appears with two states.
     */
    method ToBeChecked() returns (checks: set<(Point, Cell)>)
      ensures checks == Tagged(living, Candidates(living))
    {
      checks := {};
      var todo := living;
      ghost var done: set<Point> := {};
      ghost var covered: set<Point> := {};
      while todo != {}
        invariant done + todo == living && done !! todo
        invariant covered == Candidates(done)
        invariant IsTagging(checks, living, covered)
        decreases |todo|
      {
        var point :| point in todo;
        TaggingInsert(checks, living, covered, point);
        checks := checks + {(point, Alive)};
        checks := InsertNeighbourhood(point, checks, covered + {point});
        CandidatesInsert(done, point);
        covered := covered + {point} + Neighbours(point);
        done := done + {point};
        todo := todo - {point};
      }
      TaggingIsTagged(checks, living, covered);
    }

    /** The inner loop of ToBeChecked: insert every neighbour of `point` with its current state. */
    method InsertNeighbourhood(point: Point, checks: set<(Point, Cell)>, ghost covered: set<Point>)
      returns (result: set<(Point, Cell)>)
      requires IsTagging(checks, living, covered)
      ensures IsTagging(result, living, covered + Neighbours(point))
    {
      result := checks;
      var pending := Neighbours(point);
      ghost var seen: set<Point> := {};
      while pending != {}
        invariant seen + pending == Neighbours(point)
        invariant IsTagging(result, living, covered + seen)
        decreases |pending|
      {
        var n :| n in pending;
        TaggingInsert(result, living, covered + seen, n);
        assert covered + seen + {n} == covered + (seen + {n});
        result := result + {(n, GetCell(n))};
        pending := pending - {n};
        seen := seen + {n};
      }
    }
  }

  /** The Game of Life engine: it owns exactly one board. */
  class Automaton {
    var board: Board

    /** A new automaton owns an empty board. */
    constructor ()
      ensures fresh(board)
      ensures board.living == {}
    {
      board := new Board();
    }

    /** Replace the owned board wholesale. */
    method SetBoard(b: Board)
      modifies this
      ensures board == b
    {
      board := b;
    }

    /**
     * One generation: count live neighbours of every candidate against the
     * unchanged board, collect the points to flip, then flip each of them
     * once. The new live set is the B3/S23 successor of the old one.
     */
    method StepNextGeneration()
      modifies board
      ensures board.living == NextGen(old(board.living))
      ensures forall p :: p in board.living <==> LivesNext(old(board.living), p)
    {
      ghost var live := board.living;
      var checks := board.ToBeChecked();
      TaggedIsTagging(live, Candidates(live));
      var flips := DecideFlips(checks);
      board.FlipAll(flips);
      FlippedIsNextGen(live, board.living);
    }

    /**
     * The decision pass of StepNextGeneration: every candidate whose state
     * the rule changes is marked, with all counts taken on the current board.
     */
    method DecideFlips(checks: set<(Point, Cell)>) returns (flips: set<Point>)
      requires IsTagging(checks, board.living, Candidates(board.living))
      ensures flips == FlipSet(board.living)
    {
      flips := {};
      var todo := checks;
      ghost var decided: set<Point> := {};
      while todo != {}
        invariant todo <= checks
        invariant forall p :: p in decided <==> (p, CellOf(board.living, p)) in checks - todo
        invariant forall p :: p in flips <==> p in decided && ShouldFlip(CellOf(board.living, p), LiveCount(board.living, p))
        decreases |todo|
      {
        var pc :| pc in todo;
        var (point, status) := pc;
        var count := |board.GetLivingNeighbours(point)|;
        match status {
          case Alive =>
            if count != 2 && count != 3 {
              flips := flips + {point};
            }
          case Dead =>
            if count == 3 {
              flips := flips + {point};
            }
        }
        todo := todo - {pc};
        decided := decided + {point};
      }
      DecisionsMarkFlipSet(board.living, decided, flips);
    }
  }
}
