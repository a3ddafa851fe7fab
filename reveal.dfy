/**
 * The flood fill of game.js:218-243 as a value: what `revealCell` leaves on a
 * board. `Flood` opens one cell and, when its number is 0, walks the eight
 * offsets in the source's order (`FloodAround`), flooding every in-bounds one.
 * The engine's recursive method is proved to produce exactly this board; the
 * lemmas here say what that board is.
 */
module Reveal {
  import opened Geometry
  import opened Board

  /** `g` with the cell at `c` turned face up (game.js:225). */
  function Opened(g: Grid, c: Coord): (r: Grid)
    requires 0 <= c.y < |g| && 0 <= c.x < |g[c.y]|
    ensures |r| == |g| && forall y | 0 <= y < |g| :: |r[y]| == |g[y]|
    ensures forall d :: At(r, d) == if d == c then At(g, c).(isRevealed := true) else At(g, d)
  {
    Update(g, c, At(g, c).(isRevealed := true))
  }

  /** The board after `revealCell(c.x, c.y)` on `g`. */
  function Flood(g: Grid, w: int, h: int, c: Coord): (r: Grid)
    requires Shaped(g, w, h) && InBounds(w, h, c)
    ensures Shaped(r, w, h) && |ClosedSet(r, w, h)| <= |ClosedSet(g, w, h)|
    decreases |ClosedSet(g, w, h)|, 1, 0
  {
    if At(g, c).isRevealed || At(g, c).isFlagged then
      g
    else
      var g1 := Opened(g, c);
      RevealOne(g, g1, w, h, c);
      if At(g1, c).adjacentMines == 0 then FloodAround(g1, w, h, c, 0) else g1
  }

  /** The board after the neighbour loop of `revealCell` has run from offset `i` (of `Around(c)`) to the end. */
  function FloodAround(g: Grid, w: int, h: int, c: Coord, i: int): (r: Grid)
    requires Shaped(g, w, h) && 0 <= i <= 8
    ensures Shaped(r, w, h) && |ClosedSet(r, w, h)| <= |ClosedSet(g, w, h)|
    decreases |ClosedSet(g, w, h)|, 2, 8 - i
  {
    if i == 8 then
      g
    else
      var n := Around(c)[i];
      var g1 := if InBounds(w, h, n) then Flood(g, w, h, n) else g;
      FloodAround(g1, w, h, c, i + 1)
  }

  /**
   * The first step of `revealCell` on a closed cell: `g1` has the cell open,
   * one closed cell fewer, and the flood fill and its count from `g` are the
   * neighbour loop's from `g1` when the cell's number is 0, and `g1` alone otherwise.
   */
  lemma FloodOpen(g: Grid, g1: Grid, w: int, h: int, c: Coord)
    requires Shaped(g, w, h) && InBounds(w, h, c) && !At(g, c).isRevealed && !At(g, c).isFlagged
    requires g1 == Opened(g, c)
    ensures Shaped(g1, w, h) && |ClosedSet(g1, w, h)| < |ClosedSet(g, w, h)| && At(g1, c).adjacentMines == At(g, c).adjacentMines
    ensures At(g1, c).adjacentMines == 0 ==>
      Flood(g, w, h, c) == FloodAround(g1, w, h, c, 0) && Opens(g, w, h, c) == 1 + OpensAround(g1, w, h, c, 0)
    ensures At(g1, c).adjacentMines != 0 ==> Flood(g, w, h, c) == g1 && Opens(g, w, h, c) == 1
  {
    RevealOne(g, g1, w, h, c);
  }

  /** A flood fill only turns closed cells face up. */
  lemma {:induction false} FloodGrowth(g: Grid, w: int, h: int, c: Coord)
    requires Shaped(g, w, h) && InBounds(w, h, c)
    ensures RevealGrowth(g, Flood(g, w, h, c), w, h)
    decreases |ClosedSet(g, w, h)|, 1, 0
  {
    if !(At(g, c).isRevealed || At(g, c).isFlagged) {
      var g1 := Opened(g, c);
      RevealOne(g, g1, w, h, c);
      if At(g1, c).adjacentMines == 0 {
        FloodAroundGrowth(g1, w, h, c, 0);
        RevealGrowthTrans(g, g1, FloodAround(g1, w, h, c, 0), w, h);
      }
    }
  }

  lemma {:induction false} FloodAroundGrowth(g: Grid, w: int, h: int, c: Coord, i: int)
    requires Shaped(g, w, h) && 0 <= i <= 8
    ensures RevealGrowth(g, FloodAround(g, w, h, c, i), w, h)
    decreases |ClosedSet(g, w, h)|, 2, 8 - i
  {
    if i < 8 {
      var n := Around(c)[i];
      var g1 := if InBounds(w, h, n) then Flood(g, w, h, n) else g;
      if InBounds(w, h, n) {
        FloodGrowth(g, w, h, n);
      }
      FloodAroundGrowth(g1, w, h, c, i + 1);
      RevealGrowthTrans(g, g1, FloodAround(g1, w, h, c, i + 1), w, h);
    }
  }

  /** How many cells `revealCell(c.x, c.y)` turns face up on `g`: how often it increments `revealedCount`. */
  function Opens(g: Grid, w: int, h: int, c: Coord): nat
    requires Shaped(g, w, h) && InBounds(w, h, c)
    decreases |ClosedSet(g, w, h)|, 1, 0
  {
    if At(g, c).isRevealed || At(g, c).isFlagged then
      0
    else
      var g1 := Opened(g, c);
      RevealOne(g, g1, w, h, c);
      1 + if At(g1, c).adjacentMines == 0 then OpensAround(g1, w, h, c, 0) else 0
  }

  /** How many cells the neighbour loop turns face up from offset `i` on. */
  function OpensAround(g: Grid, w: int, h: int, c: Coord, i: int): nat
    requires Shaped(g, w, h) && 0 <= i <= 8
    decreases |ClosedSet(g, w, h)|, 2, 8 - i
  {
    if i == 8 then
      0
    else
      var n := Around(c)[i];
      if InBounds(w, h, n) then Opens(g, w, h, n) + OpensAround(Flood(g, w, h, n), w, h, c, i + 1)
      else OpensAround(g, w, h, c, i + 1)
  }

  /**
   * One offset `i` of the neighbour loop: the in-bounds neighbour is flooded
   * and counted, an off-board one is skipped, and the rest of the loop goes on
   * from there.
   */
  lemma FloodAroundStep(g: Grid, w: int, h: int, c: Coord, i: int, n: Coord)
    requires Shaped(g, w, h) && 0 <= i < 8 && n == Around(c)[i]
    ensures InBounds(w, h, n) ==>
        FloodAround(g, w, h, c, i) == FloodAround(Flood(g, w, h, n), w, h, c, i + 1) &&
        OpensAround(g, w, h, c, i) == Opens(g, w, h, n) + OpensAround(Flood(g, w, h, n), w, h, c, i + 1)
    ensures !InBounds(w, h, n) ==>
        FloodAround(g, w, h, c, i) == FloodAround(g, w, h, c, i + 1) &&
        OpensAround(g, w, h, c, i) == OpensAround(g, w, h, c, i + 1)
  {
  }

  /** Each cell the flood fill counts is one more revealed cell on the board: the counter stays exact. */
  lemma {:induction false} FloodOpens(g: Grid, w: int, h: int, c: Coord)
    requires Shaped(g, w, h) && InBounds(w, h, c)
    ensures |RevealedSet(Flood(g, w, h, c), w, h)| == |RevealedSet(g, w, h)| + Opens(g, w, h, c)
    decreases |ClosedSet(g, w, h)|, 1, 0
  {
    if !(At(g, c).isRevealed || At(g, c).isFlagged) {
      var g1 := Opened(g, c);
      RevealOne(g, g1, w, h, c);
      if At(g1, c).adjacentMines == 0 {
        FloodAroundOpens(g1, w, h, c, 0);
      }
    }
  }

  lemma {:induction false} FloodAroundOpens(g: Grid, w: int, h: int, c: Coord, i: int)
    requires Shaped(g, w, h) && 0 <= i <= 8
    ensures |RevealedSet(FloodAround(g, w, h, c, i), w, h)| == |RevealedSet(g, w, h)| + OpensAround(g, w, h, c, i)
    decreases |ClosedSet(g, w, h)|, 2, 8 - i
  {
    if i < 8 {
      var n := Around(c)[i];
      if InBounds(w, h, n) {
        FloodOpens(g, w, h, n);
        FloodAroundOpens(Flood(g, w, h, n), w, h, c, i + 1);
      } else {
        FloodAroundOpens(g, w, h, c, i + 1);
      }
    }
  }

  /**
   * A flood fill from `c` leaves `c` open or flagged, and every zero it opens
   * has its whole neighbourhood open or flagged.
   */
  lemma {:induction false} FloodClosed(g: Grid, w: int, h: int, c: Coord)
    requires Shaped(g, w, h) && InBounds(w, h, c)
    ensures At(Flood(g, w, h, c), c).isRevealed || At(Flood(g, w, h, c), c).isFlagged
    ensures ZeroClosed(g, Flood(g, w, h, c), w, h)
    decreases |ClosedSet(g, w, h)|, 1, 0
  {
    if !(At(g, c).isRevealed || At(g, c).isFlagged) {
      var g1 := Opened(g, c);
      RevealOne(g, g1, w, h, c);
      var r := Flood(g, w, h, c);
      if At(g1, c).adjacentMines == 0 {
        assert r == FloodAround(g1, w, h, c, 0);
        FloodAroundGrowth(g1, w, h, c, 0);
        FloodAroundClosed(g1, w, h, c, 0);
        forall n | n in Neighbours(w, h, c)
          ensures At(r, n).isRevealed || At(r, n).isFlagged
        {
          var j :| 0 <= j < 8 && Around(c)[j] == n;
        }
        ZeroClosedStep(g, g1, r, w, h, c);
      } else {
        assert r == g1;
        ZeroClosedStep(g, g1, g1, w, h, c);
      }
    }
  }

  /**
   * The neighbour loop from offset `i` on leaves every in-bounds offset still
   * to come open or flagged, and every zero it opens closed.
   */
  lemma {:induction false} FloodAroundClosed(g: Grid, w: int, h: int, c: Coord, i: int)
    requires Shaped(g, w, h) && 0 <= i <= 8
    ensures forall j | i <= j < 8 && InBounds(w, h, Around(c)[j]) ::
      At(FloodAround(g, w, h, c, i), Around(c)[j]).isRevealed || At(FloodAround(g, w, h, c, i), Around(c)[j]).isFlagged
    ensures ZeroClosed(g, FloodAround(g, w, h, c, i), w, h)
    decreases |ClosedSet(g, w, h)|, 2, 8 - i
  {
    if i < 8 {
      var n := Around(c)[i];
      var g1 := if InBounds(w, h, n) then Flood(g, w, h, n) else g;
      var r := FloodAround(g, w, h, c, i);
      assert r == FloodAround(g1, w, h, c, i + 1);
      FloodAroundClosed(g1, w, h, c, i + 1);
      if InBounds(w, h, n) {
        FloodGrowth(g, w, h, n);
        FloodAroundGrowth(g1, w, h, c, i + 1);
        FloodClosed(g, w, h, n);
        CoveredGrowth(g1, r, w, h, [n]);
        ZeroClosedTrans(g, g1, r, w, h);
      }
    }
  }

  /** `z` was closed on `g0`, is open on `g1`, and its number is 0. */
  ghost predicate OpenedZero(g0: Grid, g1: Grid, z: Coord) {
    !At(g0, z).isRevealed && At(g1, z).isRevealed && At(g0, z).adjacentMines == 0
  }

  /** Some in-bounds neighbour of `d` is a zero opened from `g0` to `g1`. */
  ghost predicate NextToOpenedZero(g0: Grid, g1: Grid, w: int, h: int, d: Coord) {
    exists z :: z in Neighbours(w, h, d) && OpenedZero(g0, g1, z)
  }

  /**
   * The flood fill opens nothing beyond its region: every cell it opens is
   * the clicked cell or a neighbour of a zero it opened, the only cells whose
   * neighbours game.js:233-241 visits.
   */
  lemma {:induction false} FloodBounded(g: Grid, w: int, h: int, c: Coord)
    requires Shaped(g, w, h) && InBounds(w, h, c)
    ensures forall d | InBounds(w, h, d) && !At(g, d).isRevealed && At(Flood(g, w, h, c), d).isRevealed ::
      d == c || NextToOpenedZero(g, Flood(g, w, h, c), w, h, d)
    decreases |ClosedSet(g, w, h)|, 1, 0
  {
    if !(At(g, c).isRevealed || At(g, c).isFlagged) {
      var g1 := Opened(g, c);
      FloodOpen(g, g1, w, h, c);
      if At(g1, c).adjacentMines == 0 {
        FloodAroundBounded(g1, w, h, c, 0);
        FloodAroundGrowth(g1, w, h, c, 0);
        BoundedOpen(g, g1, FloodAround(g1, w, h, c, 0), w, h, c);
      }
    }
  }

  /**
   * The neighbour loop around `c` from offset `i` on opens only neighbours of
   * `c` and neighbours of zeros it opened.
   */
  lemma {:induction false} FloodAroundBounded(g: Grid, w: int, h: int, c: Coord, i: int)
    requires Shaped(g, w, h) && 0 <= i <= 8
    ensures forall d | InBounds(w, h, d) && !At(g, d).isRevealed && At(FloodAround(g, w, h, c, i), d).isRevealed ::
      Adjacent(d, c) || NextToOpenedZero(g, FloodAround(g, w, h, c, i), w, h, d)
    decreases |ClosedSet(g, w, h)|, 2, 8 - i
  {
    if i < 8 {
      var n := Around(c)[i];
      if InBounds(w, h, n) {
        var g1 := Flood(g, w, h, n);
        assert FloodAround(g, w, h, c, i) == FloodAround(g1, w, h, c, i + 1);
        assert n in Around(c);
        FloodAroundBounded(g1, w, h, c, i + 1);
        FloodBounded(g, w, h, n);
        FloodGrowth(g, w, h, n);
        FloodAroundGrowth(g1, w, h, c, i + 1);
        BoundedStep(g, g1, FloodAround(g1, w, h, c, i + 1), w, h, c, n);
      } else {
        FloodAroundBounded(g, w, h, c, i + 1);
      }
    }
  }

  /**
   * Opening the zero `c` and then only neighbours of `c` or of opened zeros
   * opens, counted from before `c`, only `c` and neighbours of opened zeros.
   */
  lemma BoundedOpen(g: Grid, g1: Grid, r: Grid, w: int, h: int, c: Coord)
    requires Shaped(g, w, h) && InBounds(w, h, c) && !At(g, c).isRevealed && At(g, c).adjacentMines == 0
    requires forall d :: At(g1, d) == if d == c then At(g, c).(isRevealed := true) else At(g, d)
    requires RevealGrowth(g1, r, w, h)
    requires forall d | InBounds(w, h, d) && !At(g1, d).isRevealed && At(r, d).isRevealed ::
      Adjacent(d, c) || NextToOpenedZero(g1, r, w, h, d)
    ensures forall d | InBounds(w, h, d) && !At(g, d).isRevealed && At(r, d).isRevealed ::
      d == c || NextToOpenedZero(g, r, w, h, d)
  {
    assert OpenedZero(g, r, c);
    forall d | InBounds(w, h, d) && !At(g, d).isRevealed && At(r, d).isRevealed && d != c
      ensures NextToOpenedZero(g, r, w, h, d)
    {
      if Adjacent(d, c) {
        assert c in Neighbours(w, h, d);
      } else {
        var z :| z in Neighbours(w, h, d) && OpenedZero(g1, r, z);
        assert OpenedZero(g, r, z);
      }
    }
  }

  /**
   * Flooding the neighbour `n` of `c` and then running the rest of the
   * neighbour loop opens only neighbours of `c` and of opened zeros.
   */
  lemma BoundedStep(g: Grid, g1: Grid, r: Grid, w: int, h: int, c: Coord, n: Coord)
    requires RevealGrowth(g, g1, w, h) && RevealGrowth(g1, r, w, h) && Adjacent(n, c)
    requires forall d | InBounds(w, h, d) && !At(g, d).isRevealed && At(g1, d).isRevealed ::
      d == n || NextToOpenedZero(g, g1, w, h, d)
    requires forall d | InBounds(w, h, d) && !At(g1, d).isRevealed && At(r, d).isRevealed ::
      Adjacent(d, c) || NextToOpenedZero(g1, r, w, h, d)
    ensures forall d | InBounds(w, h, d) && !At(g, d).isRevealed && At(r, d).isRevealed ::
      Adjacent(d, c) || NextToOpenedZero(g, r, w, h, d)
  {
    forall d | InBounds(w, h, d) && !At(g, d).isRevealed && At(r, d).isRevealed && !Adjacent(d, c)
      ensures NextToOpenedZero(g, r, w, h, d)
    {
      if At(g1, d).isRevealed {
        var z :| z in Neighbours(w, h, d) && OpenedZero(g, g1, z);
        OpenedZeroKept(g, g1, r, w, h, z);
      } else {
        var z :| z in Neighbours(w, h, d) && OpenedZero(g1, r, z);
        OpenedZeroKept(g, g1, r, w, h, z);
      }
    }
  }

  /** A zero opened in either of two reveal steps is a zero opened by both together. */
  lemma OpenedZeroKept(g0: Grid, g1: Grid, g2: Grid, w: int, h: int, z: Coord)
    requires RevealGrowth(g0, g1, w, h) && RevealGrowth(g1, g2, w, h) && InBounds(w, h, z)
    ensures OpenedZero(g0, g1, z) || OpenedZero(g1, g2, z) ==> OpenedZero(g0, g2, z)
  {
  }

  /** On a correctly numbered board, a flood fill started on a non-mine opens no mine. */
  lemma {:induction false} FloodSafe(g: Grid, w: int, h: int, c: Coord)
    requires Shaped(g, w, h) && InBounds(w, h, c)
    requires AdjacencyCorrect(g, w, h) && !At(g, c).isMine
    ensures NoMineOpened(g, Flood(g, w, h, c), w, h)
    decreases |ClosedSet(g, w, h)|, 1, 0
  {
    if !(At(g, c).isRevealed || At(g, c).isFlagged) {
      var g1 := Opened(g, c);
      RevealOne(g, g1, w, h, c);
      var r := Flood(g, w, h, c);
      if At(g1, c).adjacentMines == 0 {
        assert r == FloodAround(g1, w, h, c, 0);
        FloodAroundGrowth(g1, w, h, c, 0);
        RevealKeepsNumbers(g, g1, w, h);
        forall j | 0 <= j < 8
          ensures Around(c)[j] !in MineSet(g1, w, h)
        {
          if InBounds(w, h, Around(c)[j]) {
            ZeroMeansNoMineAround(g1, w, h, c, Around(c)[j]);
          }
        }
        FloodAroundSafe(g1, w, h, c, 0);
        NoMineOpenedTrans(g, g1, r, w, h);
      }
    }
  }

  /**
   * On a correctly numbered board, the neighbour loop from offset `i` on opens
   * no mine when none of the in-bounds offsets still to come is one.
   */
  lemma {:induction false} FloodAroundSafe(g: Grid, w: int, h: int, c: Coord, i: int)
    requires Shaped(g, w, h) && 0 <= i <= 8 && AdjacencyCorrect(g, w, h)
    requires forall j | i <= j < 8 :: Around(c)[j] !in MineSet(g, w, h)
    ensures NoMineOpened(g, FloodAround(g, w, h, c, i), w, h)
    decreases |ClosedSet(g, w, h)|, 2, 8 - i
  {
    if i < 8 {
      var n := Around(c)[i];
      if InBounds(w, h, n) {
        var g1 := Flood(g, w, h, n);
        var r := FloodAround(g, w, h, c, i);
        assert r == FloodAround(g1, w, h, c, i + 1);
        FloodStepSafe(g, w, h, n);
        FloodAroundGrowth(g1, w, h, c, i + 1);
        FloodAroundSafe(g1, w, h, c, i + 1);
        NoMineOpenedTrans(g, g1, r, w, h);
      } else {
        assert FloodAround(g, w, h, c, i) == FloodAround(g, w, h, c, i + 1);
        FloodAroundSafe(g, w, h, c, i + 1);
      }
    }
  }

  /** One flood fill from a non-mine of a correctly numbered board: it only reveals, opens no mine and keeps the numbers. */
  lemma FloodStepSafe(g: Grid, w: int, h: int, n: Coord)
    requires Shaped(g, w, h) && InBounds(w, h, n) && AdjacencyCorrect(g, w, h) && n !in MineSet(g, w, h)
    ensures RevealGrowth(g, Flood(g, w, h, n), w, h) && NoMineOpened(g, Flood(g, w, h, n), w, h)
    ensures AdjacencyCorrect(Flood(g, w, h, n), w, h) && MineSet(Flood(g, w, h, n), w, h) == MineSet(g, w, h)
    decreases |ClosedSet(g, w, h)|, 1, 1
  {
    FloodGrowth(g, w, h, n);
    FloodSafe(g, w, h, n);
    RevealKeepsNumbers(g, Flood(g, w, h, n), w, h);
  }

  /**
   * A flood fill started on a non-mine of a correctly numbered board in play
   * keeps it in play: the flags and their count stay, no mine is opened, and
   * the revealed count grows by the cells it opens.
   */
  lemma FloodInPlay(g: Grid, w: int, h: int, c: Coord, flags: int, revealed: int)
    requires Shaped(g, w, h) && InBounds(w, h, c) && !At(g, c).isMine
    requires AdjacencyCorrect(g, w, h) && NoRevealedFlag(g, w, h) && InPlay(g, w, h, flags, revealed)
    ensures AdjacencyCorrect(Flood(g, w, h, c), w, h) && NoRevealedFlag(Flood(g, w, h, c), w, h)
    ensures InPlay(Flood(g, w, h, c), w, h, flags, revealed + Opens(g, w, h, c))
    ensures MineSet(Flood(g, w, h, c), w, h) == MineSet(g, w, h)
  {
    var r := Flood(g, w, h, c);
    FloodGrowth(g, w, h, c);
    FloodSafe(g, w, h, c);
    FloodOpens(g, w, h, c);
    RevealGrowthKeeps(g, r, w, h);
  }
}
