/**
 * The board as a value: the cell record of game.js, grids of cells, the sets of
 * mined / flagged / revealed positions the engine's counters stand for, and the
 * relations between a grid before and after an engine operation.
 */
module Board {
  import opened Geometry

  /**
   * One square of the engine's board (game.js:72-79). `isWrongFlag` is only ever
   * set by the loss clean-up (game.js:294-296); cells that never had it read as false.
   */
  datatype Cell = Cell(isMine: bool, isRevealed: bool, isFlagged: bool, adjacentMines: int, isWrongFlag: bool)

  /** The cell that `init` creates (game.js:72-79). */
  const Blank := Cell(false, false, false, 0, false)

  /** A board as rows of cells: `g[y][x]`. */
  type Grid = seq<seq<Cell>>

  predicate Shaped(g: Grid, w: int, h: int) {
    0 <= w && |g| == h && forall y | 0 <= y < h :: |g[y]| == w
  }

  /** The cell at `c`, or a blank cell off the board. */
  function At(g: Grid, c: Coord): Cell {
    if 0 <= c.y < |g| && 0 <= c.x < |g[c.y]| then g[c.y][c.x] else Blank
  }

  function MineSet(g: Grid, w: int, h: int): (r: set<Coord>)
    ensures forall c {:trigger c in r} :: c in r <==> InBounds(w, h, c) && At(g, c).isMine
  {
    set c | c in Positions(w, h) && At(g, c).isMine
  }

  function FlaggedSet(g: Grid, w: int, h: int): (r: set<Coord>)
    ensures forall c {:trigger c in r} :: c in r <==> InBounds(w, h, c) && At(g, c).isFlagged
  {
    set c | c in Positions(w, h) && At(g, c).isFlagged
  }

  function RevealedSet(g: Grid, w: int, h: int): (r: set<Coord>)
    ensures forall c {:trigger c in r} :: c in r <==> InBounds(w, h, c) && At(g, c).isRevealed
  {
    set c | c in Positions(w, h) && At(g, c).isRevealed
  }

  /** Cells the flood fill may still open: neither revealed nor flagged (its termination measure). */
  function ClosedSet(g: Grid, w: int, h: int): (r: set<Coord>)
    ensures forall c {:trigger c in r} :: c in r <==> InBounds(w, h, c) && !At(g, c).isRevealed && !At(g, c).isFlagged
  {
    set c | c in Positions(w, h) && !At(g, c).isRevealed && !At(g, c).isFlagged
  }

  /** Positions where a mine may still be placed: in bounds, not yet a mine, outside the 3x3 around `click`. */
  function EligibleSet(g: Grid, w: int, h: int, click: Coord): (r: set<Coord>)
    ensures forall c {:trigger c in r} :: c in r <==> InBounds(w, h, c) && !At(g, c).isMine && !Near(c, click)
  {
    set c | c in Positions(w, h) && !At(g, c).isMine && !Near(c, click)
  }

  /** Every non-mine cell holds the number of its mined in-bounds neighbours (game.js:111-137). */
  ghost predicate AdjacencyCorrect(g: Grid, w: int, h: int) {
    forall c {:trigger At(g, c).adjacentMines} :: InBounds(w, h, c) && !At(g, c).isMine ==>
      At(g, c).adjacentMines == MinesAround(MineSet(g, w, h), w, h, c)
  }

  ghost predicate NoRevealedMine(g: Grid, w: int, h: int) {
    forall c :: InBounds(w, h, c) && At(g, c).isMine ==> !At(g, c).isRevealed
  }

  ghost predicate NoRevealedFlag(g: Grid, w: int, h: int) {
    forall c :: InBounds(w, h, c) && At(g, c).isRevealed ==> !At(g, c).isFlagged
  }

  ghost predicate NoWrongFlag(g: Grid, w: int, h: int) {
    forall c :: InBounds(w, h, c) ==> !At(g, c).isWrongFlag
  }

  /** Every flag sits on a mine: the flags a perfect player would have placed. */
  ghost predicate FlagsOnMines(g: Grid, w: int, h: int) {
    forall c :: InBounds(w, h, c) && At(g, c).isFlagged ==> At(g, c).isMine
  }

  ghost predicate AllMinesFlagged(g: Grid, w: int, h: int) {
    forall c :: InBounds(w, h, c) && At(g, c).isMine ==> At(g, c).isFlagged
  }

  /**
   * `g1` arises from `g0` by revealing some cells that were neither revealed nor
   * flagged; nothing else about any cell changes.
   */
  ghost predicate RevealGrowth(g0: Grid, g1: Grid, w: int, h: int) {
    Shaped(g0, w, h) && Shaped(g1, w, h) &&
    forall c :: InBounds(w, h, c) ==>
      At(g1, c) == At(g0, c) ||
      (!At(g0, c).isRevealed && !At(g0, c).isFlagged && At(g1, c) == At(g0, c).(isRevealed := true))
  }

  /** Every neighbour in `ns` is revealed or flagged in `g`. */
  predicate Covered(g: Grid, ns: seq<Coord>) {
    forall n :: n in ns ==> At(g, n).isRevealed || At(g, n).isFlagged
  }

  /**
   * Flood-fill closure: every cell revealed in `g1` but not in `g0` whose
   * number is 0 has all its neighbours revealed or flagged in `g1`.
   */
  ghost predicate ZeroClosed(g0: Grid, g1: Grid, w: int, h: int) {
    forall c :: InBounds(w, h, c) && !At(g0, c).isRevealed && At(g1, c).isRevealed && At(g1, c).adjacentMines == 0 ==>
      Covered(g1, Neighbours(w, h, c))
  }

  /** No cell revealed in `g1` but not in `g0` is a mine. */
  ghost predicate NoMineOpened(g0: Grid, g1: Grid, w: int, h: int) {
    forall c :: InBounds(w, h, c) && !At(g0, c).isRevealed && At(g1, c).isRevealed ==> !At(g1, c).isMine
  }

  lemma RevealGrowthTrans(g0: Grid, g1: Grid, g2: Grid, w: int, h: int)
    requires RevealGrowth(g0, g1, w, h) && RevealGrowth(g1, g2, w, h)
    ensures RevealGrowth(g0, g2, w, h)
  {
  }

  /** Revealing keeps the mines, the flags and every number, and never closes a cell. */
  lemma RevealGrowthKeeps(g0: Grid, g1: Grid, w: int, h: int)
    requires RevealGrowth(g0, g1, w, h)
    ensures MineSet(g1, w, h) == MineSet(g0, w, h)
    ensures FlaggedSet(g1, w, h) == FlaggedSet(g0, w, h)
    ensures RevealedSet(g0, w, h) <= RevealedSet(g1, w, h)
    ensures ClosedSet(g1, w, h) <= ClosedSet(g0, w, h)
    ensures AdjacencyCorrect(g0, w, h) ==> AdjacencyCorrect(g1, w, h)
    ensures NoRevealedFlag(g0, w, h) ==> NoRevealedFlag(g1, w, h)
    ensures NoWrongFlag(g0, w, h) ==> NoWrongFlag(g1, w, h)
    ensures NoRevealedMine(g0, w, h) && NoMineOpened(g0, g1, w, h) ==> NoRevealedMine(g1, w, h)
  {
    assert forall c :: InBounds(w, h, c) ==> At(g1, c).isMine == At(g0, c).isMine;
    assert MineSet(g1, w, h) == MineSet(g0, w, h);
  }

  /** Revealing keeps the mines and the numbers, so a correct numbering stays correct. */
  lemma RevealKeepsNumbers(g0: Grid, g1: Grid, w: int, h: int)
    requires RevealGrowth(g0, g1, w, h)
    ensures MineSet(g1, w, h) == MineSet(g0, w, h)
    ensures AdjacencyCorrect(g0, w, h) ==> AdjacencyCorrect(g1, w, h)
  {
    assert forall c :: InBounds(w, h, c) ==> At(g1, c).isMine == At(g0, c).isMine;
    assert MineSet(g1, w, h) == MineSet(g0, w, h);
  }

  /** Zero-closure accumulates along successive reveals. */
  lemma ZeroClosedTrans(g0: Grid, g1: Grid, g2: Grid, w: int, h: int)
    requires RevealGrowth(g0, g1, w, h) && RevealGrowth(g1, g2, w, h)
    requires ZeroClosed(g0, g1, w, h) && ZeroClosed(g1, g2, w, h)
    ensures ZeroClosed(g0, g2, w, h)
  {
    forall c | InBounds(w, h, c) && !At(g0, c).isRevealed && At(g2, c).isRevealed && At(g2, c).adjacentMines == 0
      ensures Covered(g2, Neighbours(w, h, c))
    {
      if At(g1, c).isRevealed {
        assert Covered(g1, Neighbours(w, h, c));
        forall n | n in Neighbours(w, h, c) ensures At(g2, n).isRevealed || At(g2, n).isFlagged {
          assert InBounds(w, h, n);
        }
      }
    }
  }

  /** The cell at `c` after `calculateAdjacentMines` has run on `g`: non-mines get their mined-neighbour count. */
  function Counted(g: Grid, w: int, h: int, c: Coord): Cell {
    if At(g, c).isMine then At(g, c) else At(g, c).(adjacentMines := MinesAround(MineSet(g, w, h), w, h, c))
  }

  /**
   * Progress of a row-major scan over the board that gives each cell `c` the
   * value `f(c)`: cells before `upto` hold it, the others are as in `g0`.
   */
  ghost predicate ScannedBefore(g0: Grid, g: Grid, w: int, h: int, upto: Coord, f: Coord -> Cell) {
    Shaped(g, w, h) &&
    forall c :: InBounds(w, h, c) ==> At(g, c) == if Earlier(c, upto) then f(c) else At(g0, c)
  }

  lemma ScanStart(g0: Grid, w: int, h: int, f: Coord -> Cell)
    requires Shaped(g0, w, h)
    ensures ScannedBefore(g0, g0, w, h, Coord(0, 0), f)
  {
  }

  lemma ScanNextRow(g0: Grid, g: Grid, w: int, h: int, y: int, f: Coord -> Cell)
    requires ScannedBefore(g0, g, w, h, Coord(w, y), f)
    ensures ScannedBefore(g0, g, w, h, Coord(0, y + 1), f)
  {
    assert forall c :: InBounds(w, h, c) ==> (Earlier(c, Coord(w, y)) <==> Earlier(c, Coord(0, y + 1)));
  }

  /** One step of the scan: the cell at `Coord(x, y)` takes its new value, nothing else changes. */
  lemma ScanStep(g0: Grid, gb: Grid, ga: Grid, w: int, h: int, x: int, y: int, f: Coord -> Cell)
    requires ScannedBefore(g0, gb, w, h, Coord(x, y), f) && Shaped(ga, w, h)
    requires forall c :: c != Coord(x, y) ==> At(ga, c) == At(gb, c)
    requires InBounds(w, h, Coord(x, y)) ==> At(ga, Coord(x, y)) == f(Coord(x, y))
    ensures ScannedBefore(g0, ga, w, h, Coord(x + 1, y), f)
  {
    forall c | InBounds(w, h, c)
      ensures At(ga, c) == if Earlier(c, Coord(x + 1, y)) then f(c) else At(g0, c)
    {
      if c != Coord(x, y) {
        assert At(ga, c) == At(gb, c);
        assert Earlier(c, Coord(x + 1, y)) == Earlier(c, Coord(x, y));
      }
    }
  }

  lemma ScanDone(g0: Grid, g: Grid, w: int, h: int, f: Coord -> Cell)
    requires ScannedBefore(g0, g, w, h, Coord(0, h), f)
    ensures forall c :: InBounds(w, h, c) ==> At(g, c) == f(c)
  {
  }

  /** Renumbering changes only the number of a cell. */
  lemma CountedMarks(g: Grid, w: int, h: int, c: Coord)
    ensures Counted(g, w, h, c).isMine == At(g, c).isMine && Counted(g, w, h, c).isRevealed == At(g, c).isRevealed
    ensures Counted(g, w, h, c).isFlagged == At(g, c).isFlagged && Counted(g, w, h, c).isWrongFlag == At(g, c).isWrongFlag
  {
  }

  /** Renumbering keeps every mine where it is. */
  lemma CountedMines(g0: Grid, g: Grid, w: int, h: int)
    requires forall c :: InBounds(w, h, c) ==> At(g, c) == Counted(g0, w, h, c)
    ensures MineSet(g, w, h) == MineSet(g0, w, h)
    ensures AdjacencyCorrect(g, w, h)
  {
    assert forall c :: InBounds(w, h, c) ==> At(g, c).isMine == At(g0, c).isMine;
    assert MineSet(g, w, h) == MineSet(g0, w, h);
  }

  /** A change that keeps every mine and every number keeps the numbers right. */
  lemma AdjacencyKept(g0: Grid, g1: Grid, w: int, h: int)
    requires AdjacencyCorrect(g0, w, h)
    requires forall c :: InBounds(w, h, c) ==>
      At(g1, c).isMine == At(g0, c).isMine && At(g1, c).adjacentMines == At(g0, c).adjacentMines
    ensures MineSet(g1, w, h) == MineSet(g0, w, h)
    ensures AdjacencyCorrect(g1, w, h)
  {
    assert MineSet(g1, w, h) == MineSet(g0, w, h);
  }

  /** `g` is `g0` with a mine added on every position of `placed` and nothing else changed. */
  ghost predicate MinesAddedOn(g0: Grid, g: Grid, w: int, h: int, placed: set<Coord>) {
    Shaped(g, w, h) &&
    forall c :: InBounds(w, h, c) ==> At(g, c) == if c in placed then At(g0, c).(isMine := true) else At(g0, c)
  }

  /** Adding mines on eligible positions: the mines grow by them and the eligible positions shrink by them. */
  lemma MinesAddedSets(g0: Grid, g: Grid, w: int, h: int, click: Coord, placed: set<Coord>)
    requires MinesAddedOn(g0, g, w, h, placed) && placed <= EligibleSet(g0, w, h, click)
    ensures MineSet(g, w, h) == MineSet(g0, w, h) + placed && MineSet(g0, w, h) !! placed
    ensures EligibleSet(g, w, h, click) == EligibleSet(g0, w, h, click) - placed
    ensures |EligibleSet(g, w, h, click)| == |EligibleSet(g0, w, h, click)| - |placed|
    ensures |MineSet(g, w, h)| == |MineSet(g0, w, h)| + |placed|
  {
    assert MineSet(g, w, h) == MineSet(g0, w, h) + placed;
    var e0, e := EligibleSet(g0, w, h, click), EligibleSet(g, w, h, click);
    assert e == e0 - placed;
    assert e0 == e + placed;
  }

  /** One more mine on an eligible position `c` of `gb`. */
  lemma MinesAddedStep(g0: Grid, gb: Grid, ga: Grid, w: int, h: int, click: Coord, placed: set<Coord>, c: Coord)
    requires MinesAddedOn(g0, gb, w, h, placed) && placed <= EligibleSet(g0, w, h, click)
    requires c in EligibleSet(gb, w, h, click) && Shaped(ga, w, h)
    requires forall d :: At(ga, d) == if d == c then At(gb, c).(isMine := true) else At(gb, d)
    ensures MinesAddedOn(g0, ga, w, h, placed + {c}) && placed + {c} <= EligibleSet(g0, w, h, click)
    ensures c !in placed
  {
  }

  /** Placing mines on eligible positions and then numbering the board: what changed and what did not. */
  lemma PlacedAndCounted(g0: Grid, g1: Grid, g2: Grid, w: int, h: int, click: Coord, placed: set<Coord>)
    requires MinesAddedOn(g0, g1, w, h, placed) && placed <= EligibleSet(g0, w, h, click)
    requires forall c :: InBounds(w, h, c) ==> At(g2, c) == Counted(g1, w, h, c)
    ensures MineSet(g2, w, h) == MineSet(g0, w, h) + placed && MineSet(g0, w, h) !! placed
    ensures forall m :: m in placed ==> !Near(m, click)
    ensures forall c :: InBounds(w, h, c) ==>
      At(g2, c).isRevealed == At(g0, c).isRevealed &&
      At(g2, c).isFlagged == At(g0, c).isFlagged &&
      At(g2, c).isWrongFlag == At(g0, c).isWrongFlag
    ensures AdjacencyCorrect(g2, w, h)
  {
    forall c | InBounds(w, h, c)
      ensures At(g2, c).isRevealed == At(g0, c).isRevealed && At(g2, c).isFlagged == At(g0, c).isFlagged
      ensures At(g2, c).isWrongFlag == At(g0, c).isWrongFlag
    {
      CountedMarks(g1, w, h, c);
    }
    MinesAddedSets(g0, g1, w, h, click, placed);
    CountedMines(g1, g2, w, h);
    forall m | m in placed
      ensures !Near(m, click)
    {
      assert m in EligibleSet(g0, w, h, click);
    }
  }

  /**
   * On a board without mines, at least `w * h - 9` positions are eligible for a
   * mine whatever the first click: only the 3x3 block around it is excluded.
   */
  lemma EligibleLowerBound(g: Grid, w: int, h: int, click: Coord)
    requires 0 <= w && 0 <= h && MineSet(g, w, h) == {}
    ensures |EligibleSet(g, w, h, click)| >= w * h - 9
  {
    AllCoordsShape(w, h);
    AllCoordsCount(w, h);
    var all := set c | c in AllCoords(w, h);
    DistinctCard(Around(click));
    var block := (set a | a in Around(click)) + {click};
    assert |block| <= 9;
    assert all - block <= EligibleSet(g, w, h, click);
    assert all == (all - block) + (all * block);
    SubsetCard(all * block, block);
    SubsetCard(all - block, EligibleSet(g, w, h, click));
  }

  /**
   * Revealing the closed cell `c` alone: a reveal step that opens one more
   * cell, leaves one fewer closed cell and opens a mine only if `c` is one.
   */
  lemma RevealOne(g0: Grid, g1: Grid, w: int, h: int, c: Coord)
    requires Shaped(g0, w, h) && InBounds(w, h, c) && !At(g0, c).isRevealed && !At(g0, c).isFlagged
    requires Shaped(g1, w, h)
    requires forall d :: At(g1, d) == if d == c then At(g0, c).(isRevealed := true) else At(g0, d)
    ensures RevealGrowth(g0, g1, w, h)
    ensures |RevealedSet(g1, w, h)| == |RevealedSet(g0, w, h)| + 1
    ensures |ClosedSet(g1, w, h)| < |ClosedSet(g0, w, h)|
    ensures !At(g0, c).isMine ==> NoMineOpened(g0, g1, w, h)
  {
    assert RevealedSet(g1, w, h) == RevealedSet(g0, w, h) + {c};
    assert ClosedSet(g1, w, h) == ClosedSet(g0, w, h) - {c};
  }

  /** A board of blank cells has no mines, flags or revealed cells, and its zero numbers are right. */
  lemma BlankFacts(g: Grid, w: int, h: int)
    requires forall c :: InBounds(w, h, c) ==> At(g, c) == Blank
    ensures MineSet(g, w, h) == {} && FlaggedSet(g, w, h) == {} && RevealedSet(g, w, h) == {}
    ensures AdjacencyCorrect(g, w, h) && NoRevealedFlag(g, w, h) && NoRevealedMine(g, w, h) && NoWrongFlag(g, w, h)
  {
    assert forall c :: c !in MineSet(g, w, h);
    assert forall c :: c !in FlaggedSet(g, w, h);
    assert forall c :: c !in RevealedSet(g, w, h);
    forall c | InBounds(w, h, c)
      ensures MinesAround(MineSet(g, w, h), w, h, c) == 0
    {
      MinesAroundZero(MineSet(g, w, h), w, h, c);
    }
  }

  /** No mine is opened along two successive reveals if none is opened along either. */
  lemma NoMineOpenedTrans(g0: Grid, g1: Grid, g2: Grid, w: int, h: int)
    requires RevealGrowth(g0, g1, w, h) && RevealGrowth(g1, g2, w, h)
    requires NoMineOpened(g0, g1, w, h) && NoMineOpened(g1, g2, w, h)
    ensures NoMineOpened(g0, g2, w, h)
  {
  }

  /** Cells revealed or flagged stay so while more cells are revealed. */
  lemma CoveredGrowth(g0: Grid, g1: Grid, w: int, h: int, ns: seq<Coord>)
    requires RevealGrowth(g0, g1, w, h)
    requires forall n :: n in ns ==> InBounds(w, h, n)
    requires Covered(g0, ns)
    ensures Covered(g1, ns)
  {
  }

  /**
   * One flood-fill step: reveal `c0` alone (g0 to g1), then further cells (g1 to g2)
   * that are zero-closed; if `c0` is a zero its neighbours are covered in g2, so
   * the whole of g0 to g2 is zero-closed.
   */
  lemma ZeroClosedStep(g0: Grid, g1: Grid, g2: Grid, w: int, h: int, c0: Coord)
    requires RevealGrowth(g0, g1, w, h) && RevealGrowth(g1, g2, w, h) && ZeroClosed(g1, g2, w, h)
    requires forall c :: InBounds(w, h, c) && c != c0 ==> At(g1, c) == At(g0, c)
    requires At(g1, c0).adjacentMines == 0 ==> Covered(g2, Neighbours(w, h, c0))
    ensures ZeroClosed(g0, g2, w, h)
  {
    forall c | InBounds(w, h, c) && !At(g0, c).isRevealed && At(g2, c).isRevealed && At(g2, c).adjacentMines == 0
      ensures Covered(g2, Neighbours(w, h, c))
    {
      if c != c0 {
        assert !At(g1, c).isRevealed;
      }
    }
  }

  /** A non-mine cell with number 0 under correct adjacency has no mined neighbour. */
  lemma ZeroMeansNoMineAround(g: Grid, w: int, h: int, c: Coord, n: Coord)
    requires AdjacencyCorrect(g, w, h)
    requires InBounds(w, h, c) && !At(g, c).isMine && At(g, c).adjacentMines == 0
    requires n in Neighbours(w, h, c)
    ensures !At(g, n).isMine
  {
    MinesAroundZero(MineSet(g, w, h), w, h, c);
  }

  /** Revealing only adds revealed cells, so the revealed count grows by the number of new ones. */
  lemma RevealedGrowthCard(g0: Grid, g1: Grid, w: int, h: int)
    requires RevealGrowth(g0, g1, w, h)
    ensures |RevealedSet(g1, w, h)| == |RevealedSet(g0, w, h)| + |RevealedSet(g1, w, h) - RevealedSet(g0, w, h)|
  {
    RevealGrowthKeeps(g0, g1, w, h);
    var a, b := RevealedSet(g0, w, h), RevealedSet(g1, w, h);
    assert b == a + (b - a);
  }

  /** What the loss clean-up does to one cell (game.js:286-298). */
  function LossCell(c: Cell): (r: Cell)
    ensures r.isMine == c.isMine && r.isFlagged == c.isFlagged && r.adjacentMines == c.adjacentMines
    ensures r.isRevealed <==> c.isRevealed || (c.isMine && !c.isFlagged)
    ensures r.isWrongFlag <==> c.isWrongFlag || (!c.isMine && c.isFlagged)
  {
    var c1 := if c.isMine && !c.isFlagged then c.(isRevealed := true) else c;
    if !c1.isMine && c1.isFlagged then c1.(isWrongFlag := true) else c1
  }

  /** What the win clean-up does to one cell (game.js:300-308). */
  function WinCell(c: Cell): (r: Cell)
    ensures r.isMine == c.isMine && r.isRevealed == c.isRevealed && r.adjacentMines == c.adjacentMines
    ensures r.isWrongFlag == c.isWrongFlag
    ensures r.isFlagged <==> c.isFlagged || c.isMine
  {
    if c.isMine && !c.isFlagged then c.(isFlagged := true) else c
  }

  /** What the loss clean-up (`isWin` false) or the win clean-up does to a cell. */
  function Cleaned(isWin: bool, c: Cell): Cell {
    if isWin then WinCell(c) else LossCell(c)
  }

  /** The win clean-up applied twice is the win clean-up applied once. */
  lemma WinCellIdempotent(c: Cell)
    ensures WinCell(WinCell(c)) == WinCell(c)
  {
  }

  /**
   * The clean-up of a whole board (g0 to g1) keeps every mine and number; the
   * win clean-up of a board without a revealed mine leaves every mine flagged
   * and no flag on a revealed cell; on a board without mines it changes nothing
   * that is revealed.
   */
  lemma CleanedFacts(isWin: bool, g0: Grid, g1: Grid, w: int, h: int)
    requires Shaped(g0, w, h) && Shaped(g1, w, h)
    requires forall c :: InBounds(w, h, c) ==> At(g1, c) == Cleaned(isWin, At(g0, c))
    requires NoRevealedFlag(g0, w, h) && (isWin ==> NoRevealedMine(g0, w, h))
    ensures MineSet(g1, w, h) == MineSet(g0, w, h)
    ensures AdjacencyCorrect(g0, w, h) ==> AdjacencyCorrect(g1, w, h)
    ensures NoRevealedFlag(g1, w, h)
    ensures isWin ==> NoRevealedMine(g1, w, h) && AllMinesFlagged(g1, w, h)
    ensures isWin || MineSet(g0, w, h) == {} ==> RevealedSet(g1, w, h) == RevealedSet(g0, w, h)
  {
    assert forall c :: InBounds(w, h, c) ==>
      At(g1, c).isMine == At(g0, c).isMine && At(g1, c).adjacentMines == At(g0, c).adjacentMines;
    assert MineSet(g1, w, h) == MineSet(g0, w, h);
    if AdjacencyCorrect(g0, w, h) {
      AdjacencyKept(g0, g1, w, h);
    }
    if isWin || MineSet(g0, w, h) == {} {
      forall c | InBounds(w, h, c)
        ensures At(g1, c).isRevealed == At(g0, c).isRevealed
      {
        assert !isWin ==> c !in MineSet(g0, w, h);
      }
      assert RevealedSet(g1, w, h) == RevealedSet(g0, w, h);
    }
  }

  /** `a` and `b` agree on everything a player can change: revealed, flagged, wrong flag. */
  predicate SameMarks(a: Cell, b: Cell) {
    a.isRevealed == b.isRevealed && a.isFlagged == b.isFlagged && a.isWrongFlag == b.isWrongFlag
  }

  /**
   * The board facts of a game in play whose counters read `flags` and
   * `revealed`: no mine is open, no flag is marked wrong, and the counters
   * count the flagged and the revealed cells.
   */
  ghost predicate InPlay(g: Grid, w: int, h: int, flags: int, revealed: int) {
    NoRevealedMine(g, w, h) && NoWrongFlag(g, w, h) &&
    flags == |FlaggedSet(g, w, h)| && revealed == |RevealedSet(g, w, h)|
  }

  /**
   * `g` is `g0` after the first-click placement (game.js:90-108): `count` new
   * mines, none in the 3x3 block around `click`, the old mines kept, every
   * mark unchanged, and every number right.
   */
  ghost predicate Dealt(g0: Grid, g: Grid, w: int, h: int, click: Coord, count: int) {
    Shaped(g, w, h) &&
    MineSet(g0, w, h) <= MineSet(g, w, h) &&
    |MineSet(g, w, h)| == |MineSet(g0, w, h)| + count &&
    (forall m :: m in MineSet(g, w, h) - MineSet(g0, w, h) ==> !Near(m, click)) &&
    (forall c :: InBounds(w, h, c) ==> SameMarks(At(g, c), At(g0, c))) &&
    AdjacencyCorrect(g, w, h)
  }

  /**
   * A placement on a board with nothing revealed keeps the game in play with
   * the same counters, and the new mines sit outside the block around the click.
   */
  lemma DealtInPlay(g0: Grid, g: Grid, w: int, h: int, click: Coord, count: int, flags: int)
    requires Shaped(g0, w, h) && Dealt(g0, g, w, h, click, count)
    requires RevealedSet(g0, w, h) == {} && MineSet(g0, w, h) == {}
    requires InPlay(g0, w, h, flags, 0) && NoRevealedFlag(g0, w, h)
    ensures InPlay(g, w, h, flags, 0) && NoRevealedFlag(g, w, h) && RevealedSet(g, w, h) == {}
    ensures |MineSet(g, w, h)| == count && !At(g, click).isMine
  {
    assert forall c :: InBounds(w, h, c) ==> At(g, c).isRevealed == At(g0, c).isRevealed;
    assert RevealedSet(g, w, h) == {};
    assert forall c :: InBounds(w, h, c) ==> At(g, c).isFlagged == At(g0, c).isFlagged;
    assert FlaggedSet(g, w, h) == FlaggedSet(g0, w, h);
    forall c | InBounds(w, h, c)
      ensures !At(g, c).isRevealed
    {
      assert c !in RevealedSet(g0, w, h);
    }
    assert click in MineSet(g, w, h) ==> click in MineSet(g, w, h) - MineSet(g0, w, h);
  }

  /**
   * The first win test of game.js:248-251 on a board with no mine revealed: the
   * revealed count reaches the number of positions that are not mines exactly
   * when every such position is revealed.
   */
  lemma SafeWinCount(g: Grid, w: int, h: int)
    requires Shaped(g, w, h) && NoRevealedMine(g, w, h)
    ensures |RevealedSet(g, w, h)| == w * h - |MineSet(g, w, h)| <==>
      forall c :: InBounds(w, h, c) && !At(g, c).isMine ==> At(g, c).isRevealed
  {
    PositionsCount(w, h);
    var all, mines, open := Positions(w, h), MineSet(g, w, h), RevealedSet(g, w, h);
    var safe := all - mines;
    assert all == mines + safe;
    assert |safe| == w * h - |mines|;
    assert open <= safe;
    if forall c :: InBounds(w, h, c) && !At(g, c).isMine ==> At(g, c).isRevealed {
      assert open == safe;
    }
    if |open| == |safe| {
      SubsetFull(open, safe);
    }
  }

  /**
   * The second win test of game.js:254-270: as many flags as mines with every
   * mine flagged means the flags lie exactly on the mines.
   */
  lemma FlagWinCount(g: Grid, w: int, h: int)
    ensures |FlaggedSet(g, w, h)| == |MineSet(g, w, h)| && AllMinesFlagged(g, w, h) <==>
      FlaggedSet(g, w, h) == MineSet(g, w, h)
  {
    var mines, flags := MineSet(g, w, h), FlaggedSet(g, w, h);
    if AllMinesFlagged(g, w, h) && |flags| == |mines| {
      SubsetFull(mines, flags);
    }
    if flags == mines {
      forall c | InBounds(w, h, c) && At(g, c).isMine
        ensures At(g, c).isFlagged
      {
        assert c in mines;
      }
    }
  }

  /** `g` with the cell at `c` replaced by `v` (an assignment to `board[y][x]` or to one of its fields). */
  function Update(g: Grid, c: Coord, v: Cell): (r: Grid)
    requires 0 <= c.y < |g| && 0 <= c.x < |g[c.y]|
    ensures |r| == |g| && forall y | 0 <= y < |g| :: |r[y]| == |g[y]|
    ensures forall d :: At(r, d) == if d == c then v else At(g, d)
  {
    g[c.y := g[c.y][c.x := v]]
  }

  /** `g` with the flag of the cell at `c` flipped (game.js:205). */
  function Toggled(g: Grid, c: Coord): (r: Grid)
    requires 0 <= c.y < |g| && 0 <= c.x < |g[c.y]|
    ensures |r| == |g| && forall y | 0 <= y < |g| :: |r[y]| == |g[y]|
    ensures forall d :: At(r, d) == if d == c then At(g, c).(isFlagged := !At(g, c).isFlagged) else At(g, d)
  {
    Update(g, c, g[c.y][c.x].(isFlagged := !g[c.y][c.x].isFlagged))
  }

  /** Flipping the same flag twice gives back the board (two right clicks cancel). */
  lemma ToggleTwice(g: Grid, c: Coord)
    requires 0 <= c.y < |g| && 0 <= c.x < |g[c.y]|
    ensures Toggled(Toggled(g, c), c) == g
  {
    var t := Toggled(Toggled(g, c), c);
    assert t[c.y] == g[c.y];
    assert forall y | 0 <= y < |g| && y != c.y :: t[y] == g[y];
  }

  /**
   * Flipping the flag of an unrevealed cell keeps a board in play, with the
   * flag count one up or one down; mines, numbers and revealed cells stay.
   */
  lemma ToggleInPlay(g: Grid, w: int, h: int, c: Coord, flags: int, revealed: int)
    requires Shaped(g, w, h) && InBounds(w, h, c) && !At(g, c).isRevealed
    requires AdjacencyCorrect(g, w, h) && NoRevealedFlag(g, w, h) && InPlay(g, w, h, flags, revealed)
    ensures AdjacencyCorrect(Toggled(g, c), w, h) && NoRevealedFlag(Toggled(g, c), w, h)
    ensures InPlay(Toggled(g, c), w, h, flags + (if At(Toggled(g, c), c).isFlagged then 1 else -1), revealed)
    ensures MineSet(Toggled(g, c), w, h) == MineSet(g, w, h)
    ensures RevealedSet(Toggled(g, c), w, h) == RevealedSet(g, w, h)
  {
    ToggledFlags(g, w, h, c);
    AdjacencyKept(g, Toggled(g, c), w, h);
  }

  /** A flip of one unrevealed cell's flag moves exactly that cell in or out of the flagged set. */
  lemma ToggledFlags(g: Grid, w: int, h: int, c: Coord)
    requires Shaped(g, w, h) && InBounds(w, h, c)
    ensures FlaggedSet(Toggled(g, c), w, h) ==
      if At(g, c).isFlagged then FlaggedSet(g, w, h) - {c} else FlaggedSet(g, w, h) + {c}
    ensures MineSet(Toggled(g, c), w, h) == MineSet(g, w, h)
    ensures RevealedSet(Toggled(g, c), w, h) == RevealedSet(g, w, h)
  {
  }

  // ----- the snapshot handed to the solver (game.js:326-343) -----

  /** What `getGameState` copies of a cell: everything but `isWrongFlag` (the positional x, y are implicit). */
  datatype View = View(isMine: bool, isRevealed: bool, isFlagged: bool, adjacentMines: int)

  type Snapshot = seq<seq<View>>

  function ViewOf(c: Cell): View {
    View(c.isMine, c.isRevealed, c.isFlagged, c.adjacentMines)
  }

  predicate SnapShaped(s: Snapshot, w: int, h: int) {
    0 <= w && |s| == h && forall y | 0 <= y < h :: |s[y]| == w
  }

  /** The view at `c`, or an unrevealed blank view off the board. */
  function Look(s: Snapshot, c: Coord): View {
    if 0 <= c.y < |s| && 0 <= c.x < |s[c.y]| then s[c.y][c.x] else View(false, false, false, 0)
  }

  /** The snapshot of a grid: a per-cell copy. */
  ghost predicate IsSnapshotOf(s: Snapshot, g: Grid, w: int, h: int) {
    SnapShaped(s, w, h) && forall c :: InBounds(w, h, c) ==> Look(s, c) == ViewOf(At(g, c))
  }

  /** The one snapshot of a shaped grid. */
  function SnapshotOf(g: Grid, w: int, h: int): (s: Snapshot)
    requires Shaped(g, w, h)
    ensures IsSnapshotOf(s, g, w, h)
  {
    seq(h, y requires 0 <= y < h => seq(w, x requires 0 <= x < w => ViewOf(g[y][x])))
  }

  /** A grid has exactly one snapshot. */
  lemma SnapshotUnique(s: Snapshot, g: Grid, w: int, h: int)
    requires Shaped(g, w, h) && IsSnapshotOf(s, g, w, h)
    ensures s == SnapshotOf(g, w, h)
  {
    var t := SnapshotOf(g, w, h);
    forall y | 0 <= y < h
      ensures s[y] == t[y]
    {
      forall x | 0 <= x < w
        ensures s[y][x] == t[y][x]
      {
        assert Look(s, Coord(x, y)) == ViewOf(At(g, Coord(x, y)));
        assert Look(t, Coord(x, y)) == ViewOf(At(g, Coord(x, y)));
      }
    }
  }

  function SnapMineSet(s: Snapshot, w: int, h: int): (r: set<Coord>)
    ensures forall c {:trigger c in r} :: c in r <==> InBounds(w, h, c) && Look(s, c).isMine
  {
    set c | c in Positions(w, h) && Look(s, c).isMine
  }
}
