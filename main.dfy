/**
 * The page script of main.js, the parts that act on the game and the solver:
 * starting a new game, and replaying a lost solver run on the same
 * minefield. The replay reads back the mine positions that the loss handler
 * (`MinesweeperAI.OnGameOver`) saved on the game, so the two together form a
 * capture-and-rebuild round trip. Rendering, dialogs, buttons and the speed
 * slider are not modelled; the difficulty chosen in the dropdown is a
 * parameter, and the bodies of the two delayed callbacks are methods the
 * caller runs when their delay has passed.
 */
module Main {
  import opened Geometry
  import opened Board
  import opened Rules
  import opened Engine
  import opened Deduction
  import opened Solver

  /** main.js:30-51: the chosen difficulty, a fresh board, the solver reset and its failure memory cleared. */
  method InitGame(game: Game, ai: MinesweeperAI, d: Difficulty)
    requires ai.game == game && game.Valid() && ai.Valid()
    modifies game, ai
    ensures game.Valid() && ai.Valid()
    ensures game.isFirstClick && !game.isGameOver && !game.isGameWon
    ensures game.flagsPlaced == 0 && game.revealedCount == 0 && game.timeElapsed == 0 && game.timer == NoTimer
    ensures forall c :: InBounds(game.width, game.height, c) ==> At(game.board, c) == Blank
    ensures ai.Stopped() && !ai.wasRunningWhenFailed && ai.failedPositions == [] && ai.lastFailedPosition == None
  {
    game.SetDifficulty(d);
    game.Init();
    ai.Reset();
    ai.ClearFailureRecords();
  }

  /** The cell main.js:204-212 puts at each position: closed, unflagged, a mine exactly when listed. */
  function Rebuilt(mines: seq<Coord>, c: Coord): Cell {
    Cell(c in mines, false, false, 0, false)
  }

  /** main.js:199-214: the board rebuilt row by row, a mine on each listed position and nothing else. */
  method RebuildBoard(game: Game, mines: seq<Coord>)
    requires 0 <= game.width && 0 <= game.height
    modifies game`board
    ensures Shaped(game.board, game.width, game.height)
    ensures forall c :: InBounds(game.width, game.height, c) ==> At(game.board, c) == Rebuilt(mines, c)
  {
    var w, h := game.width, game.height;
    var rows: Grid := [];
    for y := 0 to h
      invariant |rows| == y
      invariant forall i | 0 <= i < y :: |rows[i]| == w
      invariant forall i, j | 0 <= i < y && 0 <= j < w :: rows[i][j] == Rebuilt(mines, Coord(j, i))
    {
      var row: seq<Cell> := [];
      for x := 0 to w
        invariant |row| == x
        invariant forall j | 0 <= j < x :: row[j] == Rebuilt(mines, Coord(j, y))
      {
        var isMine := Coord(x, y) in mines;
        row := row + [Cell(isMine, false, false, 0, false)];
      }
      rows := rows + [row];
    }
    game.board := rows;
  }

  /** Numbering a rebuilt board keeps its mines where the list put them and leaves every cell closed and unmarked. */
  lemma NumberedRebuilt(g0: Grid, g: Grid, w: int, h: int, mines: seq<Coord>)
    requires forall c :: InBounds(w, h, c) ==> At(g0, c) == Rebuilt(mines, c)
    requires forall c :: InBounds(w, h, c) ==> At(g, c) == Counted(g0, w, h, c)
    ensures forall c :: InBounds(w, h, c) ==>
      At(g, c).isMine == (c in mines) && !At(g, c).isRevealed && !At(g, c).isFlagged && !At(g, c).isWrongFlag
  {
    forall c | InBounds(w, h, c)
      ensures At(g, c).isMine == (c in mines) && !At(g, c).isRevealed && !At(g, c).isFlagged && !At(g, c).isWrongFlag
    {
      CountedMarks(g0, w, h, c);
    }
  }

  /**
   * A saved minefield fit for a game of `mineCount` mines on a `w` x `h`
   * board: that many positions, all on the board, none listed twice.
   */
  ghost predicate Minefield(mines: seq<Coord>, w: int, h: int, mineCount: int) {
    Distinct(mines) && |mines| == mineCount && forall p | p in mines :: InBounds(w, h, p)
  }

  /**
   * The loss handler's capture (main.js:306-314) is such a minefield for the
   * game it was taken from: a board past its first click holds exactly
   * `mineCount` mines, and the capture lists each of them once.
   */
  lemma CapturedMinefield(g: Grid, w: int, h: int, mineCount: int)
    requires Shaped(g, w, h) && 0 <= h && |MineSet(g, w, h)| == mineCount
    ensures Minefield(MinePositions(SnapshotOf(g, w, h), w, h), w, h, mineCount)
  {
    var m := MinePositions(SnapshotOf(g, w, h), w, h);
    MinePositionsOf(g, w, h);
    DistinctCard(m);
    assert (set p | p in m) == MineSet(g, w, h);
  }

  /**
   * A board rebuilt from a minefield of `mineCount` positions and numbered
   * satisfies the engine's invariant for a game in play with every counter
   * at zero and the first click behind it.
   */
  lemma RebuiltInvariant(g: Grid, w: int, h: int, mineCount: int, mines: seq<Coord>)
    requires Shaped(g, w, h) && 0 < w && 0 < h && 0 <= mineCount <= w * h - 9
    requires AdjacencyCorrect(g, w, h) && Minefield(mines, w, h, mineCount)
    requires forall c :: InBounds(w, h, c) ==>
      At(g, c).isMine == (c in mines) && !At(g, c).isRevealed && !At(g, c).isFlagged && !At(g, c).isWrongFlag
    ensures Invariant(g, w, h, mineCount, false, false, false, NoTimer, 0, 0, 0)
  {
    assert FlaggedSet(g, w, h) == {};
    assert RevealedSet(g, w, h) == {};
    DistinctCard(mines);
    assert (set p | p in mines) == MineSet(g, w, h);
  }

  /**
   * main.js:183-238, the game's side of the replay: the end-of-game flags,
   * the counters and the clock cleared, the first click marked as done, and
   * the board rebuilt with a mine exactly on each listed position and
   * numbered.
   */
  method ReplayBoard(game: Game, minePositions: seq<Coord>)
    requires game.Valid() && Minefield(minePositions, game.width, game.height, game.mineCount)
    modifies game`isGameOver, game`isGameWon, game`isFirstClick, game`timeElapsed, game`flagsPlaced
    modifies game`revealedCount, game`timer, game`board
    ensures game.Valid()
    ensures game.width == old(game.width) && game.height == old(game.height) && game.mineCount == old(game.mineCount)
    ensures !game.isGameOver && !game.isGameWon && !game.isFirstClick
    ensures game.timeElapsed == 0 && game.flagsPlaced == 0 && game.revealedCount == 0 && game.timer == NoTimer
    ensures forall c :: InBounds(game.width, game.height, c) ==>
      (At(game.board, c).isMine <==> c in minePositions) &&
      !At(game.board, c).isRevealed && !At(game.board, c).isFlagged && !At(game.board, c).isWrongFlag
    ensures AdjacencyCorrect(game.board, game.width, game.height)
    ensures game.aifailedMinePositions == old(game.aifailedMinePositions) && game.events == old(game.events)
  {
    ClearedRun(game);
    RenumberedBoard(game, minePositions);
  }

  /** main.js:184-196: the end-of-game flags, the counters and the clock cleared, the first click marked as done. */
  method ClearedRun(game: Game)
    modifies game`isGameOver, game`isGameWon, game`isFirstClick, game`timeElapsed, game`flagsPlaced
    modifies game`revealedCount, game`timer
    ensures !game.isGameOver && !game.isGameWon && !game.isFirstClick
    ensures game.timeElapsed == 0 && game.flagsPlaced == 0 && game.revealedCount == 0 && game.timer == NoTimer
  {
    game.isGameOver := false;
    game.isGameWon := false;
    game.isFirstClick := false;
    game.timeElapsed := 0;
    game.flagsPlaced := 0;
    game.revealedCount := 0;
    if game.timer != NoTimer {
      game.timer := NoTimer;
    }
  }

  /** main.js:198-236: the board rebuilt from the list, then numbered. */
  method RenumberedBoard(game: Game, minePositions: seq<Coord>)
    requires 0 < game.width && 0 < game.height && 0 <= game.mineCount <= game.width * game.height - 9
    requires Minefield(minePositions, game.width, game.height, game.mineCount)
    modifies game`board
    ensures Shaped(game.board, game.width, game.height) && AdjacencyCorrect(game.board, game.width, game.height)
    ensures Invariant(game.board, game.width, game.height, game.mineCount, false, false, false, NoTimer, 0, 0, 0)
    ensures forall c :: InBounds(game.width, game.height, c) ==>
      (At(game.board, c).isMine <==> c in minePositions) &&
      !At(game.board, c).isRevealed && !At(game.board, c).isFlagged && !At(game.board, c).isWrongFlag
  {
    RebuildBoard(game, minePositions);
    ghost var g0 := game.board;
    game.CalculateAdjacentMines();
    NumberedRebuilt(g0, game.board, game.width, game.height, minePositions);
    RebuiltInvariant(game.board, game.width, game.height, game.mineCount, minePositions);
  }

  /**
   * main.js:168-250 (`resetGameWithSameMines`). Without a saved minefield it
   * starts a new game. With one, it replays it on the game (`ReplayBoard`)
   * and resets the solver, whose failure memory stays as it was. The replay
   * marks the first click as done, and only the first move reads that memory,
   * so the replayed run never consults it (see `RetryFirstMove`).
   */
  method ResetGameWithSameMines(game: Game, ai: MinesweeperAI, d: Difficulty)
    requires ai.game == game && game.Valid() && ai.Valid()
    requires var saved := game.aifailedMinePositions;
      saved.Some? && |saved.value| > 0 ==> Minefield(saved.value, game.width, game.height, game.mineCount)
    modifies game, ai
    ensures game.Valid() && ai.Valid() && ai.Stopped() && !ai.wasRunningWhenFailed
    ensures var saved := old(game.aifailedMinePositions);
      (saved.None? || |saved.value| == 0) ==>
        game.isFirstClick && game.flagsPlaced == 0 && game.revealedCount == 0 &&
        (forall c :: InBounds(game.width, game.height, c) ==> At(game.board, c) == Blank) &&
        ai.failedPositions == [] && ai.lastFailedPosition == None
    ensures var saved := old(game.aifailedMinePositions);
      (saved.Some? && |saved.value| > 0) ==>
        game.width == old(game.width) && game.height == old(game.height) && !game.isFirstClick &&
        !game.isGameOver && game.flagsPlaced == 0 && game.revealedCount == 0 &&
        (forall c :: InBounds(game.width, game.height, c) ==>
          (At(game.board, c).isMine <==> c in saved.value) && !At(game.board, c).isRevealed &&
          !At(game.board, c).isFlagged) &&
        ai.failedPositions == old(ai.failedPositions) && ai.lastFailedPosition == old(ai.lastFailedPosition)
  {
    if game.aifailedMinePositions.None? || |game.aifailedMinePositions.value| == 0 {
      InitGame(game, ai, d);
      return;
    }
    var minePositions := game.aifailedMinePositions.value;
    ReplayBoard(game, minePositions);
    ai.Reset();
    ai.isRunning := false;
    ai.stepByStepMode := false;
    ai.wasRunningWhenFailed := false;
    // The interval that main.js clears next is already gone: `Reset` stopped it.
  }

  /**
   * The delayed tail of the replay (main.js:265-269): the solver starts a
   * continuous run marked as a retry of a failed one, so that a mine it hits
   * is recorded even once the run has stopped.
   */
  method ResumeReplay(ai: MinesweeperAI)
    requires ai.Valid()
    modifies ai`isRunning, ai`stepByStepMode, ai`scanning, ai`wasRunningWhenFailed
    ensures ai.Valid() && ai.isRunning && ai.wasRunningWhenFailed
    ensures !old(ai.isRunning) ==> !ai.stepByStepMode && ai.scanning
  {
    ai.StartSolving();
    ai.wasRunningWhenFailed := true;
  }

  /**
   * A retry as the page runs it (main.js:168-269): the replay, then, once its
   * delay has passed, `ResumeReplay` and the solver's first turn. The replayed
   * game has its first click behind it, so that turn is `Decide` on a board
   * with nothing open or flagged, a guess at the top-left corner whatever
   * failures are on record: when that corner is a mine, every retry loses
   * there again although the corner is a recorded failure from the second
   * retry on.
   */
  method RetryFirstMove(game: Game, ai: MinesweeperAI, d: Difficulty)
    requires ai.game == game && game.Valid() && ai.Valid()
    requires var saved := game.aifailedMinePositions;
      saved.Some? && |saved.value| > 0 ==> Minefield(saved.value, game.width, game.height, game.mineCount)
    modifies game, ai
    ensures game.Valid() && ai.Valid()
    ensures var saved := old(game.aifailedMinePositions);
      saved.Some? && |saved.value| > 0 ==> ai.lastMove == Guess(Coord(0, 0))
  {
    ghost var saved := game.aifailedMinePositions;
    ResetGameWithSameMines(game, ai, d);
    ResumeReplay(ai);
    if saved.Some? && |saved.value| > 0 {
      ClosedBoardGuess(SnapshotOf(game.board, game.width, game.height), game.width, game.height);
    }
    ai.MakeNextMove();
  }

  /** The delayed tail of the loss handler (main.js:323-326): the failed-run mark is dropped. */
  method ForgetFailedRun(ai: MinesweeperAI)
    modifies ai`wasRunningWhenFailed
    ensures !ai.wasRunningWhenFailed
  {
    ai.wasRunningWhenFailed := false;
  }

  /**
   * Capture then rebuild reproduces the minefield: a board whose mines sit
   * exactly on the positions captured from `g0` has the mines of `g0`, and,
   * with its numbers right, the numbers of `g0` on every safe cell.
   */
  lemma CaptureRebuild(g0: Grid, g1: Grid, w: int, h: int)
    requires Shaped(g0, w, h) && Shaped(g1, w, h) && 0 <= h
    requires forall c :: InBounds(w, h, c) ==> (At(g1, c).isMine <==> c in MinePositions(SnapshotOf(g0, w, h), w, h))
    ensures MineSet(g1, w, h) == MineSet(g0, w, h)
    ensures AdjacencyCorrect(g0, w, h) && AdjacencyCorrect(g1, w, h) ==>
      forall c :: InBounds(w, h, c) && !At(g1, c).isMine ==> At(g1, c).adjacentMines == At(g0, c).adjacentMines
  {
    MinePositionsOf(g0, w, h);
    assert MineSet(g1, w, h) == MineSet(g0, w, h);
  }
}
