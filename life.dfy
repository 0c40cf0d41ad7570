/**
 * The Game of Life rule (B3/S23) on a sparse live set, stated two ways:
 * `LivesNext` is the textbook rule over every point of the grid, and
 * `ShouldFlip` is the per-status decision table the stepping loop applies to
 * the candidate set (live cells and their neighbours).
 */
module Life {
  import opened Grid

  /** The number of live neighbours of p. */
  function LiveCount(live: set<Point>, p: Point): nat
  {
    |LivingNeighbours(live, p)|
  }

  /** B3/S23: a live cell survives with 2 or 3 live neighbours, a dead cell is born with exactly 3. */
  predicate LivesNext(live: set<Point>, p: Point)
  {
    var n := LiveCount(live, p);
    if p in live then n == 2 || n == 3 else n == 3
  }

  /**
   * The stepping loop's decision for a candidate whose snapshot status is
   * `status` and which has n live neighbours: flip exactly when the cell's
   * B3/S23 fate (alive next with 3 live neighbours, or alive now with 2)
   * differs from its status.
   */
  predicate ShouldFlip(status: Cell, n: nat)
    ensures ShouldFlip(status, n) <==> ((status == Alive) != (n == 3 || (status == Alive && n == 2)))
  {
    match status
    case Alive => n != 2 && n != 3
    case Dead => n == 3
  }

  /** Every neighbour of every live cell. */
  function NeighbourUnion(live: set<Point>): set<Point>
  {
    set p, q | p in live && q in Neighbours(p) :: q
  }

  /** A point is a neighbour of some live cell exactly when it has a live neighbour itself. */
  lemma NeighbourUnionMembers(live: set<Point>)
    ensures forall q :: q in NeighbourUnion(live) <==> LivingNeighbours(live, q) != {}
  {
    forall q | q in NeighbourUnion(live) ensures LivingNeighbours(live, q) != {} {
      var p :| p in live && q in Neighbours(p);
      assert p in LivingNeighbours(live, q);
    }
    forall q | LivingNeighbours(live, q) != {} ensures q in NeighbourUnion(live) {
      var p :| p in LivingNeighbours(live, q);
      assert q in Neighbours(p);
    }
  }

  /** The points the stepping loop evaluates: the live cells together with their neighbours. */
  function Candidates(live: set<Point>): set<Point>
  {
    live + NeighbourUnion(live)
  }

  /** The candidates are the live cells and the cells with at least one live neighbour. */
  lemma CandidatesMembers(live: set<Point>)
    ensures forall q :: q in Candidates(live) <==> q in live || LivingNeighbours(live, q) != {}
  {
    NeighbourUnionMembers(live);
  }

  /** Each candidate paired with its status on the board `live`. */
  function Tagged(live: set<Point>, s: set<Point>): set<(Point, Cell)>
  {
    set q | q in s :: (q, CellOf(live, q))
  }

  /** Tagging keeps exactly the points of s, and gives each of them one state only. */
  lemma TaggedPoints(live: set<Point>, s: set<Point>)
    ensures (set pc | pc in Tagged(live, s) :: pc.0) == s
    ensures forall a, b :: a in Tagged(live, s) && b in Tagged(live, s) && a.0 == b.0 ==> a == b
  {
    forall q | q in s ensures q in (set pc | pc in Tagged(live, s) :: pc.0) {
      assert (q, CellOf(live, q)) in Tagged(live, s);
    }
  }

  /**
   * The next generation, computed over the candidates only; it agrees with
   * the rule at every point of the grid, so leaving out the points that are
   * not candidates loses nothing.
   */
  function NextGen(live: set<Point>): (r: set<Point>)
    ensures forall p :: p in r <==> LivesNext(live, p)
  {
    var r := set p | p in Candidates(live) && LivesNext(live, p);
    CandidatesMembers(live);
    assert forall p :: p !in Candidates(live) ==> !LivesNext(live, p) by {
      forall p | p !in Candidates(live) ensures !LivesNext(live, p) {
        assert LivingNeighbours(live, p) == {};
      }
    }
    r
  }

  /** The points the stepping loop marks for flipping. */
  function FlipSet(live: set<Point>): (r: set<Point>)
    ensures forall p :: p in r <==> (p in live <==> !LivesNext(live, p))
  {
    var r := set p | p in Candidates(live) && ShouldFlip(CellOf(live, p), LiveCount(live, p));
    CandidatesMembers(live);
    assert forall p :: p !in Candidates(live) ==> !LivesNext(live, p) by {
      forall p | p !in Candidates(live) ensures !LivesNext(live, p) {
        assert LivingNeighbours(live, p) == {};
      }
    }
    r
  }

  /** Points in exactly one of a and b: the effect of flipping every point of b on the live set a. */
  function SymDiff(a: set<Point>, b: set<Point>): set<Point>
  {
    (a - b) + (b - a)
  }

  /** Flipping the same points twice restores the live set. */
  lemma FlipTwiceRestores(a: set<Point>, b: set<Point>)
    ensures SymDiff(SymDiff(a, b), b) == a
  {
  }

  /** Flipping exactly the marked points turns the live set into the next generation. */
  lemma FlipsGiveNextGen(live: set<Point>)
    ensures SymDiff(live, FlipSet(live)) == NextGen(live)
  {
  }

  /** Marking every candidate the decision table selects marks exactly FlipSet. */
  lemma DecisionsMarkFlipSet(live: set<Point>, decided: set<Point>, flips: set<Point>)
    requires forall p :: p in decided <==> p in Candidates(live)
    requires forall p :: p in flips <==> p in decided && ShouldFlip(CellOf(live, p), LiveCount(live, p))
    ensures flips == FlipSet(live)
  {
  }

  /** A live set that differs from `live` exactly on FlipSet(live) is the next generation. */
  lemma FlippedIsNextGen(live: set<Point>, after: set<Point>)
    requires forall p :: p in after <==> (p in live <==> p !in FlipSet(live))
    ensures after == NextGen(live)
  {
  }

  /** An empty board stays empty. */
  lemma EmptyStaysEmpty()
    ensures NextGen({}) == {}
  {
    forall p ensures p !in NextGen({}) {
      assert LivingNeighbours({}, p) == {};
    }
  }

  /** A single isolated live cell dies, and nothing is born around it. */
  lemma LoneCellDies(c: Point)
    ensures NextGen({c}) == {}
  {
    forall p ensures p !in NextGen({c}) {
      var n := LivingNeighbours({c}, p);
      assert n <= {c};
      SubsetCard(n, {c});
      if p == c {
        assert c !in Neighbours(c);
        assert n == {};
      }
    }
  }

  lemma SubsetSameCard<T>(a: set<T>, b: set<T>)
    requires a <= b && |a| == |b|
    ensures a == b
  {
    assert b == a + (b - a);
    assert |b - a| == 0;
  }

  /** The horizontal blinker of the source's test. */
  const HorizontalBlinker: set<Point> := {Point(1, 2), Point(2, 2), Point(3, 2)}
  /** The same blinker after one generation. */
  const VerticalBlinker: set<Point> := {Point(2, 1), Point(2, 2), Point(2, 3)}

  /** The horizontal blinker becomes vertical and then horizontal again: period 2. */
  lemma BlinkerOscillates()
    ensures NextGen(HorizontalBlinker) == VerticalBlinker
    ensures NextGen(VerticalBlinker) == HorizontalBlinker
  {
    LineOfThreeTurns(Point(1, 2), Point(2, 2), Point(3, 2), VerticalBlinker);
    LineOfThreeTurns(Point(2, 1), Point(2, 2), Point(2, 3), HorizontalBlinker);
  }

  /**
   * A line of three cells a, m, b (m in the middle) becomes the line `turned`
   * through m at right angles to it.
   */
  lemma LineOfThreeTurns(a: Point, m: Point, b: Point, turned: set<Point>)
    requires (a.y == m.y == b.y && a.x + 1 == m.x && m.x + 1 == b.x
              && turned == {Point(m.x, m.y - 1), m, Point(m.x, m.y + 1)})
          || (a.x == m.x == b.x && a.y + 1 == m.y && m.y + 1 == b.y
              && turned == {Point(m.x - 1, m.y), m, Point(m.x + 1, m.y)})
    ensures NextGen({a, m, b}) == turned
  {
    var live := {a, m, b};
    assert |live| == 3;
    forall p ensures LivesNext(live, p) <==> p in turned {
      var n := LivingNeighbours(live, p);
      if p == m {
        assert n == {a, b};
      } else if p in turned {
        assert n == live;
      } else if p == a || p == b {
        assert n == {m};
      } else if |n| == 3 {
        SubsetSameCard(n, live);
        assert false;
      }
    }
  }

  /** Adding one live cell adds that cell and its neighbourhood to the candidates. */
  lemma CandidatesInsert(live: set<Point>, x: Point)
    ensures Candidates(live + {x}) == Candidates(live) + {x} + Neighbours(x)
  {
    CandidatesMembers(live);
    CandidatesMembers(live + {x});
    forall q ensures q in Candidates(live + {x}) <==> q in Candidates(live) + {x} + Neighbours(x) {
      if q in Neighbours(x) {
        assert x in LivingNeighbours(live + {x}, q);
      }
      if LivingNeighbours(live + {x}, q) != {} && q !in Neighbours(x) {
        var p :| p in LivingNeighbours(live + {x}, q);
        assert p in LivingNeighbours(live, q);
      }
      if LivingNeighbours(live, q) != {} {
        var p :| p in LivingNeighbours(live, q);
        assert p in LivingNeighbours(live + {x}, q);
      }
    }
  }

  /** `checks` pairs exactly the points of s with their state on the board `live`. */
  ghost predicate IsTagging(checks: set<(Point, Cell)>, live: set<Point>, s: set<Point>)
  {
    forall pc :: pc in checks <==> pc.0 in s && pc.1 == CellOf(live, pc.0)
  }

  /** Inserting the pair of one more point keeps `checks` a tagging. */
  lemma TaggingInsert(checks: set<(Point, Cell)>, live: set<Point>, s: set<Point>, x: Point)
    requires IsTagging(checks, live, s)
    ensures IsTagging(checks + {(x, CellOf(live, x))}, live, s + {x})
  {
  }

  /** Tagged(live, s) is a tagging of s. */
  lemma TaggedIsTagging(live: set<Point>, s: set<Point>)
    ensures IsTagging(Tagged(live, s), live, s)
  {
  }

  /** A tagging of s is the set Tagged(live, s). */
  lemma TaggingIsTagged(checks: set<(Point, Cell)>, live: set<Point>, s: set<Point>)
    requires IsTagging(checks, live, s)
    ensures checks == Tagged(live, s)
  {
  }

}
