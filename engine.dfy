/**
 * The game engine of game.js: one `MinesweeperGame` object whose board and
 * counters are updated in place by the click handlers. The board is the
 * source's array of rows, a field that the methods reassign. The two
 * end-of-game callbacks the page installs become an event log that the page
 * layer reads after each call; the screen refresh callback is left out.
 */
module Engine {
  import opened Geometry
  import opened Board
  import opened Reveal
  import opened Display
  import opened Rules

  /** The difficulty names `setDifficulty` recognises, and any other string. */
  datatype Difficulty = Beginner | Intermediate | Expert | Other

  /** The end-of-game callbacks the engine fires: `onGameWon` and `onGameOver`. */
  datatype Event = Won | Lost

  /**
   * The drawing loop of game.js:93-104 on a board value: `count` times, a mine
   * goes on a position that is not a mine yet and lies outside the 3x3 block
   * around `click`. `Math.random` is a free choice among those positions; the
   * draws the source rejects and retries are not modelled.
   */
  method DrawMines(g0: Grid, w: int, h: int, click: Coord, count: int) returns (g: Grid, ghost placed: set<Coord>)
    requires Shaped(g0, w, h) && 0 <= count <= |EligibleSet(g0, w, h, click)|
    ensures MinesAddedOn(g0, g, w, h, placed) && placed <= EligibleSet(g0, w, h, click) && |placed| == count
  {
    g, placed := g0, {};
    var minesPlaced := 0;
    while minesPlaced < count
      invariant 0 <= minesPlaced <= count && |placed| == minesPlaced
      invariant MinesAddedOn(g0, g, w, h, placed) && placed <= EligibleSet(g0, w, h, click)
      decreases count - minesPlaced
    {
      MinesAddedSets(g0, g, w, h, click, placed);
      var c :| c in EligibleSet(g, w, h, click);
      ghost var gb := g;
      g := Update(g, c, At(g, c).(isMine := true));
      MinesAddedStep(g0, gb, g, w, h, click, placed, c);
      placed := placed + {c};
      minesPlaced := minesPlaced + 1;
    }
  }

  class Game {
    var width: int
    var height: int
    var mineCount: int
    var board: Grid
    var isGameOver: bool
    var isGameWon: bool
    var isFirstClick: bool
    var timer: Timer
    var timeElapsed: int
    var flagsPlaced: int
    var revealedCount: int
    /** Set by the page layer when a solver run loses; read back to replay the same mines. */
    var aifailedMinePositions: Option<seq<Coord>>
    /** The end-of-game callbacks fired so far, oldest first. */
    var events: seq<Event>

    /** The object invariant, on the values of the fields (see `Invariant`). */
    ghost predicate Valid()
      reads this
    {
      Invariant(board, width, height, mineCount, isGameOver, isGameWon, isFirstClick,
                timer, timeElapsed, flagsPlaced, revealedCount)
    }

    /** A left click on `c` is acted on: the game is on and the cell is neither revealed nor flagged. */
    predicate Playable(c: Coord)
      reads this
    {
      !isGameOver && !isGameWon && !At(board, c).isRevealed && !At(board, c).isFlagged
    }

    /** game.js:5-28: beginner size, no board yet, no callbacks fired. */
    constructor ()
      ensures width == 9 && height == 9 && mineCount == 10 && board == []
      ensures !isGameOver && !isGameWon && isFirstClick && timer == NoTimer && timeElapsed == 0
      ensures flagsPlaced == 0 && revealedCount == 0
      ensures aifailedMinePositions == None && events == []
    {
      width, height, mineCount := 9, 9, 10;
      board := [];
      isGameOver, isGameWon, isFirstClick := false, false, true;
      timer, timeElapsed := NoTimer, 0;
      flagsPlaced, revealedCount := 0, 0;
      aifailedMinePositions := None;
      events := [];
    }

    /** game.js:31-49: the three presets; any other name leaves the size as it was. */
    method SetDifficulty(d: Difficulty)
      modifies this`width, this`height, this`mineCount
      ensures d == Beginner ==> width == 9 && height == 9 && mineCount == 10
      ensures d == Intermediate ==> width == 16 && height == 16 && mineCount == 40
      ensures d == Expert ==> width == 30 && height == 16 && mineCount == 99
      ensures d == Other ==> width == old(width) && height == old(height) && mineCount == old(mineCount)
      ensures 0 < old(width) && 0 < old(height) && 0 <= old(mineCount) <= old(width) * old(height) - 9 ==>
        0 < width && 0 < height && 0 <= mineCount <= width * height - 9
    {
      match d
      case Beginner =>
        width, height, mineCount := 9, 9, 10;
      case Intermediate =>
        width, height, mineCount := 16, 16, 40;
      case Expert =>
        width, height, mineCount := 30, 16, 99;
      case Other =>
    }

    /** game.js:52-87: a fresh board of closed, empty cells and all counters back to zero. */
    method Init()
      requires 0 < width && 0 < height && 0 <= mineCount <= width * height - 9
      modifies this
      ensures Valid()
      ensures width == old(width) && height == old(height) && mineCount == old(mineCount)
      ensures forall c :: InBounds(width, height, c) ==> At(board, c) == Blank
      ensures !isGameOver && !isGameWon && isFirstClick && timer == NoTimer && timeElapsed == 0
      ensures flagsPlaced == 0 && revealedCount == 0
      ensures aifailedMinePositions == old(aifailedMinePositions) && events == old(events)
    {
      isGameOver, isGameWon, isFirstClick := false, false, true;
      timeElapsed, flagsPlaced, revealedCount := 0, 0, 0;
      timer := NoTimer;
      var rows: Grid := [];
      var y := 0;
      while y < height
        invariant 0 <= y <= height && |rows| == y
        invariant forall i | 0 <= i < y :: |rows[i]| == width
        invariant forall i, j | 0 <= i < y && 0 <= j < width :: rows[i][j] == Blank
      {
        var row: seq<Cell> := [];
        var x := 0;
        while x < width
          invariant 0 <= x <= width && |row| == x
          invariant forall j | 0 <= j < x :: row[j] == Blank
        {
          row := row + [Blank];
          x := x + 1;
        }
        rows := rows + [row];
        y := y + 1;
      }
      board := rows;
      BlankInvariant(board, width, height, mineCount);
    }

    /** game.js:140-153: start the one-second interval unless a handle is already held. */
    method StartTimer()
      modifies this`timer
      ensures timer == if old(timer) == NoTimer then Ticking else old(timer)
    {
      if timer == NoTimer {
        timer := Ticking;
      }
    }

    /** One firing of the interval (game.js:142-150): one more second; at 999 the interval stops itself. */
    method Tick()
      requires Valid() && timer == Ticking
      modifies this`timeElapsed, this`timer
      ensures Valid()
      ensures timeElapsed == old(timeElapsed) + 1 <= 999
      ensures timer == if timeElapsed >= 999 then Halted else Ticking
    {
      timeElapsed := timeElapsed + 1;
      if timeElapsed >= 999 {
        timer := Halted;
      }
    }

    /** The neighbour loop of game.js:117-131 for one cell: the number of mined in-bounds neighbours. */
    method CountAdjacent(c: Coord) returns (count: int)
      requires Shaped(board, width, height)
      ensures count == MinesAround(MineSet(board, width, height), width, height, c)
    {
      ghost var mines := MineSet(board, width, height);
      var around := Around(c);
      count := 0;
      var i := 0;
      while i < 8
        invariant 0 <= i <= 8
        invariant count == CountAround(mines, width, height, c, i)
      {
        var n := around[i];
        if 0 <= n.x < width && 0 <= n.y < height {
          assert board[n.y][n.x].isMine <==> n in mines;
          if board[n.y][n.x].isMine {
            count := count + 1;
          }
        }
        i := i + 1;
      }
    }

    /** game.js:111-137: store in every non-mine cell the number of its mined neighbours. */
    method CalculateAdjacentMines()
      requires Shaped(board, width, height)
      modifies this`board
      ensures Shaped(board, width, height)
      ensures forall c :: InBounds(width, height, c) ==> At(board, c) == Counted(old(board), width, height, c)
      ensures MineSet(board, width, height) == old(MineSet(board, width, height))
      ensures AdjacencyCorrect(board, width, height)
    {
      ghost var g0 := board;
      ghost var w, h := width, height;
      ghost var f := c => Counted(g0, w, h, c);
      ScanStart(g0, width, height, f);
      var y := 0;
      while y < height
        invariant 0 <= y <= height
        invariant ScannedBefore(g0, board, width, height, Coord(0, y), f)
      {
        var x := 0;
        while x < width
          invariant 0 <= x <= width
          invariant ScannedBefore(g0, board, width, height, Coord(x, y), f)
        {
          ghost var gb := board;
          assert At(gb, Coord(x, y)) == At(g0, Coord(x, y));
          if !board[y][x].isMine {
            assert forall c :: InBounds(width, height, c) ==> At(gb, c).isMine == At(g0, c).isMine;
            assert MineSet(gb, width, height) == MineSet(g0, width, height);
            var count := CountAdjacent(Coord(x, y));
            board := Update(board, Coord(x, y), board[y][x].(adjacentMines := count));
          }
          ScanStep(g0, gb, board, width, height, x, y, f);
          x := x + 1;
        }
        ScanNextRow(g0, board, width, height, y, f);
        y := y + 1;
      }
      ScanDone(g0, board, width, height, f);
      assert forall c :: f(c) == Counted(g0, width, height, c);
      CountedMines(g0, board, width, height);
    }

    /**
     * game.js:218-243: open `c` unless it is already open or flagged, and when
     * its number is 0 open its in-bounds neighbours the same way, recursively.
     * The board becomes `Flood(old(board), …)` and the revealed counter grows
     * by `Opens(old(board), …)`; the lemmas of module Reveal say what these are.
     */
    method RevealCell(c: Coord)
      requires Shaped(board, width, height) && InBounds(width, height, c)
      modifies this`board, this`revealedCount
      ensures board == Flood(old(board), width, height, c)
      ensures revealedCount == old(revealedCount) + Opens(old(board), width, height, c)
      decreases |ClosedSet(board, width, height)|
    {
      ghost var g0 := board;
      if board[c.y][c.x].isRevealed || board[c.y][c.x].isFlagged {
        return;
      }
      board := Opened(board, c);
      revealedCount := revealedCount + 1;
      FloodOpen(g0, board, width, height, c);
      if board[c.y][c.x].adjacentMines == 0 {
        var w, h := width, height;
        ghost var target := FloodAround(board, w, h, c, 0);
        ghost var total := revealedCount + OpensAround(board, w, h, c, 0);
        var around := Around(c);
        var i := 0;
        while i < 8
          invariant 0 <= i <= 8 && Shaped(board, w, h)
          invariant FloodAround(board, w, h, c, i) == target
          invariant revealedCount + OpensAround(board, w, h, c, i) == total
          invariant |ClosedSet(board, w, h)| < |ClosedSet(g0, w, h)|
        {
          var n := around[i];
          ghost var gb := board;
          FloodAroundStep(gb, w, h, c, i, n);
          if 0 <= n.x < w && 0 <= n.y < h {
            RevealCell(n);
            assert board == Flood(gb, w, h, n);
          }
          i := i + 1;
        }
      }
    }

    /**
     * game.js:90-108: place `mineCount` mines, each on a position that is not yet
     * a mine and lies outside the 3x3 block around the first click, then number
     * the board.
     */
    method PlaceMines(firstClickX: int, firstClickY: int)
      requires Shaped(board, width, height) && 0 <= mineCount
      requires mineCount <= |EligibleSet(board, width, height, Coord(firstClickX, firstClickY))|
      modifies this`board
      ensures Dealt(old(board), board, width, height, Coord(firstClickX, firstClickY), mineCount)
    {
      ghost var g0 := board;
      var click := Coord(firstClickX, firstClickY);
      var g, placed := DrawMines(board, width, height, click, mineCount);
      board := g;
      ghost var g1 := board;
      CalculateAdjacentMines();
      PlacedAndCounted(g0, g1, board, width, height, click, placed);
      MinesAddedSets(g0, g1, width, height, click, placed);
    }
 
    /**
     * The states `gameOver(true)` leaves behind when called on the board `g0`
     * (game.js:275-284, 299-309): over and won, the interval cleared, every mine
     * flagged and the flag counter set to the mine count.
     */
    ghost predicate WonFrom(g0: Grid)
      reads this
    {
      isGameOver && isGameWon && timer == NoTimer && flagsPlaced == mineCount &&
      Shaped(board, width, height) &&
      forall c :: InBounds(width, height, c) ==> At(board, c) == WinCell(At(g0, c))
    }

    /**
     * The states `gameOver(false)` leaves behind when called on the board `g0`
     * (game.js:275-298): over and lost, the interval cleared, every unflagged
     * mine revealed and every flag on a non-mine marked wrong.
     */
    ghost predicate LostFrom(g0: Grid)
      reads this
    {
      isGameOver && !isGameWon && timer == NoTimer &&
      Shaped(board, width, height) &&
      forall c :: InBounds(width, height, c) ==> At(board, c) == LossCell(At(g0, c))
    }

    /**
     * game.js:275-323: end the game, clear the interval, run the clean-up scan
     * for a loss or a win, and fire the matching callback. A win is only ever
     * declared on a board without an opened mine.
     */
    method GameOver(isWin: bool)
      requires Valid() && (isWin ==> NoRevealedMine(board, width, height))
      modifies this`board, this`isGameOver, this`isGameWon, this`timer, this`flagsPlaced, this`events
      ensures Valid()
      ensures isWin ==> WonFrom(old(board)) && AllMinesFlagged(board, width, height)
      ensures !isWin ==> LostFrom(old(board)) && flagsPlaced == old(flagsPlaced)
      ensures !isWin ==> forall c :: InBounds(width, height, c) && At(board, c).isMine && !At(board, c).isFlagged ==>
        At(board, c).isRevealed
      ensures events == old(events) + [if isWin then Won else Lost]
    {
      isGameOver := true;
      isGameWon := isWin;
      if timer != NoTimer {
        timer := NoTimer;
      }
      CleanUp(isWin);
      if isWin {
        flagsPlaced := mineCount;
      }
      events := events + [if isWin then Won else Lost];
      CleanValid(isWin);
    }

    /** `CleanInvariant` for the fields as `gameOver` leaves them. */
    twostate lemma CleanValid(isWin: bool)
      requires old(Valid()) && (isWin ==> NoRevealedMine(old(board), width, height))
      requires width == old(width) && height == old(height) && mineCount == old(mineCount)
      requires isGameOver && isGameWon == isWin && isFirstClick == old(isFirstClick) && timer == NoTimer
      requires timeElapsed == old(timeElapsed) && revealedCount == old(revealedCount)
      requires flagsPlaced == if isWin then mineCount else old(flagsPlaced)
      requires Shaped(board, width, height)
      requires forall c :: InBounds(width, height, c) ==> At(board, c) == Cleaned(isWin, At(old(board), c))
      ensures Valid()
      ensures isWin ==> AllMinesFlagged(board, width, height)
    {
      CleanInvariant(isWin, old(board), board, width, height, mineCount, old(isGameOver), old(isGameWon),
                     isFirstClick, old(timer), timeElapsed, old(flagsPlaced), revealedCount);
    }

    /** The clean-up scans of game.js:286-309: every cell gets the loss or the win clean-up. */
    method CleanUp(isWin: bool)
      requires Shaped(board, width, height)
      modifies this`board
      ensures Shaped(board, width, height)
      ensures forall c :: InBounds(width, height, c) ==> At(board, c) == Cleaned(isWin, At(old(board), c))
    {
      ghost var g0 := board;
      ghost var f := c => Cleaned(isWin, At(g0, c));
      ScanStart(g0, width, height, f);
      var y := 0;
      while y < height
        invariant 0 <= y <= height
        invariant ScannedBefore(g0, board, width, height, Coord(0, y), f)
      {
        var x := 0;
        while x < width
          invariant 0 <= x <= width
          invariant ScannedBefore(g0, board, width, height, Coord(x, y), f)
        {
          ghost var gb := board;
          var cell := board[y][x];
          assert cell == At(g0, Coord(x, y));
          if isWin {
            if cell.isMine && !cell.isFlagged {
              cell := cell.(isFlagged := true);
            }
          } else {
            if cell.isMine && !cell.isFlagged {
              cell := cell.(isRevealed := true);
            }
            if !cell.isMine && cell.isFlagged {
              cell := cell.(isWrongFlag := true);
            }
          }
          board := Update(board, Coord(x, y), cell);
          ScanStep(g0, gb, board, width, height, x, y, f);
          x := x + 1;
        }
        ScanNextRow(g0, board, width, height, y, f);
        y := y + 1;
      }
      ScanDone(g0, board, width, height, f);
    }

    /** The scan of game.js:256-266: does every mine carry a flag? It stops at the first one that does not. */
    method AllMinesFlaggedScan() returns (allMinesFlagged: bool)
      requires Shaped(board, width, height)
      ensures allMinesFlagged <==> AllMinesFlagged(board, width, height)
    {
      allMinesFlagged := true;
      var y := 0;
      while y < height
        invariant 0 <= y <= height
        invariant forall c | InBounds(width, height, c) && c.y < y :: At(board, c).isMine ==> At(board, c).isFlagged
      {
        var x := 0;
        while x < width
          invariant 0 <= x <= width
          invariant forall c | InBounds(width, height, c) && Earlier(c, Coord(x, y)) :: At(board, c).isMine ==> At(board, c).isFlagged
        {
          var cell := board[y][x];
          if cell.isMine && !cell.isFlagged {
            allMinesFlagged := false;
            assert !At(board, Coord(x, y)).isFlagged;
            break;
          }
          x := x + 1;
        }
        if !allMinesFlagged {
          break;
        }
        y := y + 1;
      }
    }

    /**
     * What `checkWinCondition` (game.js:246-272) leaves behind when it starts on
     * the board `g0` with the counters `flags0` and `revealed0`, the interval
     * state `timer0` and the callbacks `events0`: when the position is a win by
     * either test, the won state, with the won callback fired twice if the
     * safe-cell test passed (the flag test then passes as well) and once
     * otherwise; when it is not, nothing changes.
     */
    ghost predicate CheckedFrom(g0: Grid, flags0: int, revealed0: int, timer0: Timer, events0: seq<Event>)
      reads this
    {
      (Winning(g0, width, height, mineCount, flags0, revealed0) ==>
        WonFrom(g0) && events == events0 + if revealed0 == width * height - mineCount then [Won, Won] else [Won]) &&
      (!Winning(g0, width, height, mineCount, flags0, revealed0) ==>
        board == g0 && !isGameOver && !isGameWon && timer == timer0 && flagsPlaced == flags0 && events == events0)
    }

    /**
     * game.js:246-272. A safe-cell win calls `gameOver(true)`, which sets the flag
     * counter to the mine count and flags every mine, so the flag test that
     * follows passes as well and the win is declared a second time: the board
     * is unchanged by the repeat, but the won callback fires twice.
     */
    method CheckWinCondition()
      requires Valid() && !isGameOver
      modifies this`board, this`isGameOver, this`isGameWon, this`timer, this`flagsPlaced, this`events
      ensures Valid()
      ensures CheckedFrom(old(board), old(flagsPlaced), old(revealedCount), old(timer), old(events))
      ensures !old(isFirstClick) ==> (isGameWon <==> WinReached(old(board), width, height))
      ensures old(isFirstClick) ==> (isGameWon <==> old(flagsPlaced) == mineCount)
      ensures |old(events)| < |events| <==> isGameOver
      ensures forall i | |old(events)| <= i < |events| :: events[i] == Won
    {
      ghost var g0 := board;
      if isFirstClick {
        WinningBeforeDeal(board, width, height, mineCount, isGameWon, timer, timeElapsed, flagsPlaced, revealedCount);
      } else {
        WinningMeans(board, width, height, mineCount, isGameWon, timer, timeElapsed, flagsPlaced, revealedCount);
      }
      var totalSafeCells := width * height - mineCount;
      if revealedCount == totalSafeCells {
        GameOver(true);
      }
      ghost var g1 := board;
      if flagsPlaced == mineCount {
        var allMinesFlagged := AllMinesFlaggedScan();
        if allMinesFlagged {
          GameOver(true);
          forall c | InBounds(width, height, c)
            ensures At(board, c) == WinCell(At(g0, c))
          {
            WinCellIdempotent(At(g0, c));
          }
        }
      }
    }

    /**
     * game.js:194-215: on a game in play, flip the flag of an unrevealed cell,
     * move the flag counter by one in the same direction, then test for a win.
     * Past the first click the game is won exactly when every safe cell is
     * open or the flags sit exactly on the mines (`WinReached`); before it,
     * when the flag count equals the mine count. The source indexes the board
     * without a bounds check, so the cell must exist.
     */
    method HandleCellRightClick(x: int, y: int)
      requires Valid() && InBounds(width, height, Coord(x, y))
      modifies this`board, this`isGameOver, this`isGameWon, this`timer, this`flagsPlaced, this`events
      ensures Valid()
      ensures old(isGameOver || isGameWon || At(board, Coord(x, y)).isRevealed) ==>
        board == old(board) && isGameOver == old(isGameOver) && isGameWon == old(isGameWon) &&
        timer == old(timer) && flagsPlaced == old(flagsPlaced) && events == old(events)
      ensures !old(isGameOver || isGameWon || At(board, Coord(x, y)).isRevealed) ==>
        var t := Toggled(old(board), Coord(x, y));
        var flags := old(flagsPlaced) + if At(t, Coord(x, y)).isFlagged then 1 else -1;
        flags == |FlaggedSet(t, width, height)| && CheckedFrom(t, flags, revealedCount, old(timer), old(events)) &&
        (isGameWon <==> if old(isFirstClick) then flags == mineCount else WinReached(t, width, height))
    {
      if isGameOver || isGameWon {
        return;
      }
      var c := Coord(x, y);
      if board[y][x].isRevealed {
        return;
      }
      board := Toggled(board, c);
      flagsPlaced := flagsPlaced + if board[y][x].isFlagged then 1 else -1;
      ToggleValid(c);
      CheckWinCondition();
    }

    /** `ToggleInvariant` for the fields as the flag toggle leaves them. */
    twostate lemma ToggleValid(c: Coord)
      requires old(Valid()) && !old(isGameOver) && InBounds(old(width), old(height), c)
      requires !At(old(board), c).isRevealed
      requires width == old(width) && height == old(height) && mineCount == old(mineCount)
      requires isGameOver == old(isGameOver) && isGameWon == old(isGameWon) && isFirstClick == old(isFirstClick)
      requires timer == old(timer) && timeElapsed == old(timeElapsed) && revealedCount == old(revealedCount)
      requires board == Toggled(old(board), c)
      requires flagsPlaced == old(flagsPlaced) + if At(board, c).isFlagged then 1 else -1
      ensures Valid() && flagsPlaced == |FlaggedSet(board, width, height)|
    {
      ToggleInvariant(old(board), width, height, mineCount, isGameWon, isFirstClick, timer, timeElapsed,
                      old(flagsPlaced), revealedCount, c);
    }

    /**
     * game.js:156-191. On a game in play and a cell neither revealed nor flagged:
     * the first click places the mines around it (`dealt` is the board after
     * that; later clicks play on the board as it is) and starts the clock; a
     * mine ends the game as lost; any other cell is flood-revealed and the win
     * tests run. The clicked cell must exist (the source has no bounds check).
     */
    method HandleCellClick(x: int, y: int) returns (hitMine: bool, ghost dealt: Grid)
      requires Valid() && InBounds(width, height, Coord(x, y))
      modifies this`board, this`isGameOver, this`isGameWon, this`isFirstClick, this`timer
      modifies this`flagsPlaced, this`revealedCount, this`events
      ensures Valid() && Shaped(dealt, width, height)
      ensures !old(Playable(Coord(x, y))) ==>
        !hitMine && board == old(board) && isGameOver == old(isGameOver) && isGameWon == old(isGameWon) &&
        isFirstClick == old(isFirstClick) && timer == old(timer) && flagsPlaced == old(flagsPlaced) &&
        revealedCount == old(revealedCount) && events == old(events)
      ensures !old(isFirstClick) ==> dealt == old(board)
      ensures old(Playable(Coord(x, y))) ==> !isFirstClick && (hitMine <==> At(dealt, Coord(x, y)).isMine)
      ensures old(Playable(Coord(x, y))) ==> At(board, Coord(x, y)).isRevealed
      ensures old(isFirstClick && Playable(Coord(x, y))) ==>
        Dealt(old(board), dealt, width, height, Coord(x, y), mineCount) &&
        |MineSet(dealt, width, height)| == mineCount && !hitMine
      ensures hitMine ==>
        LostFrom(dealt) && flagsPlaced == old(flagsPlaced) && revealedCount == old(revealedCount) &&
        events == old(events) + [Lost]
      ensures old(Playable(Coord(x, y))) && !hitMine ==>
        DugFrom(dealt, Coord(x, y), old(flagsPlaced), old(revealedCount), if old(isFirstClick) then Ticking else old(timer), old(events))
      ensures old(isGameOver) ==> isGameOver
      ensures |old(events)| < |events| <==> isGameOver && !old(isGameOver)
      ensures !hitMine ==> forall i | |old(events)| <= i < |events| :: events[i] == Won
    {
      dealt := board;
      hitMine := false;
      if isGameOver || isGameWon {
        return;
      }
      if board[y][x].isRevealed || board[y][x].isFlagged {
        return;
      }
      hitMine, dealt := OpenPlayable(Coord(x, y));
    }

    /**
     * game.js:164-190, a left click that is acted on: the first click deals the
     * mines and starts the clock; then a mine loses the game, and any other
     * cell is dug.
     */
    method OpenPlayable(c: Coord) returns (hitMine: bool, ghost dealt: Grid)
      requires Valid() && InBounds(width, height, c) && Playable(c)
      modifies this`board, this`isGameOver, this`isGameWon, this`isFirstClick, this`timer
      modifies this`flagsPlaced, this`revealedCount, this`events
      ensures Valid() && Shaped(dealt, width, height) && !isFirstClick && (hitMine <==> At(dealt, c).isMine)
      ensures At(board, c).isRevealed
      ensures !old(isFirstClick) ==> dealt == old(board)
      ensures old(isFirstClick) ==>
        Dealt(old(board), dealt, width, height, c, mineCount) && |MineSet(dealt, width, height)| == mineCount && !hitMine
      ensures hitMine ==>
        LostFrom(dealt) && flagsPlaced == old(flagsPlaced) && revealedCount == old(revealedCount) &&
        events == old(events) + [Lost]
      ensures !hitMine ==>
        DugFrom(dealt, c, old(flagsPlaced), old(revealedCount), if old(isFirstClick) then Ticking else old(timer), old(events))
      ensures |old(events)| < |events| <==> isGameOver
      ensures !hitMine ==> forall i | |old(events)| <= i < |events| :: events[i] == Won
    {
      dealt := board;
      hitMine := false;
      var x, y := c.x, c.y;
      if isFirstClick {
        DealReady(c);
        FirstClick(x, y);
        DealValid(c);
        dealt := board;
      }
      if board[y][x].isMine {
        hitMine := true;
        GameOver(false);
        return;
      }
      assert board == dealt && flagsPlaced == old(flagsPlaced) && revealedCount == old(revealedCount);
      assert timer == (if old(isFirstClick) then Ticking else old(timer)) && events == old(events);
      Dig(c);
    }

    /**
     * game.js:164-169: the first click of a game clears `isFirstClick`, places
     * the mines away from the clicked cell and starts the clock.
     */
    method FirstClick(x: int, y: int)
      requires Shaped(board, width, height) && isFirstClick && timer == NoTimer
      requires 0 <= mineCount <= |EligibleSet(board, width, height, Coord(x, y))|
      modifies this`isFirstClick, this`board, this`timer
      ensures !isFirstClick && timer == Ticking
      ensures Dealt(old(board), board, width, height, Coord(x, y), mineCount)
    {
      isFirstClick := false;
      PlaceMines(x, y);
      StartTimer();
    }

    /** Before the first click there is room for every mine outside the block around the click. */
    lemma DealReady(click: Coord)
      requires Valid() && isFirstClick
      ensures Shaped(board, width, height) && timer == NoTimer
      ensures 0 <= mineCount <= |EligibleSet(board, width, height, click)|
    {
      EligibleLowerBound(board, width, height, click);
    }

    /** `DealInvariant` for the fields as the first click leaves them. */
    twostate lemma DealValid(click: Coord)
      requires old(Valid()) && old(isFirstClick) && !old(isGameOver)
      requires width == old(width) && height == old(height) && mineCount == old(mineCount)
      requires isGameOver == old(isGameOver) && isGameWon == old(isGameWon) && !isFirstClick && timer == Ticking
      requires timeElapsed == old(timeElapsed) && flagsPlaced == old(flagsPlaced) && revealedCount == old(revealedCount)
      requires Dealt(old(board), board, width, height, click, mineCount)
      ensures Valid() && |MineSet(board, width, height)| == mineCount && !At(board, click).isMine
    {
      DealInvariant(old(board), board, width, height, mineCount, isGameWon, old(timer), timeElapsed,
                    flagsPlaced, revealedCount, click);
    }

    /**
     * What the tail of `handleCellClick` (game.js:185-190) leaves behind when it
     * starts on the board `g0` with the counters `flags0` and `revealed0`, the
     * interval state `timer0` and the callbacks `events0`: the flood fill from
     * `c` and its count, then either the won state with one or two won
     * callbacks, or the game going on unchanged otherwise. The game is won
     * exactly when, after the flood, every safe cell is open or the flags are
     * exactly the mines.
     */
    ghost predicate DugFrom(g0: Grid, c: Coord, flags0: int, revealed0: int, timer0: Timer, events0: seq<Event>)
      reads this
    {
      Shaped(g0, width, height) && InBounds(width, height, c) &&
      var r := Flood(g0, width, height, c);
      var shown := revealed0 + Opens(g0, width, height, c);
      revealedCount == shown && CheckedFrom(r, flags0, shown, timer0, events0) &&
      (isGameWon <==> WinReached(r, width, height))
    }

    /** game.js:185-190: reveal the safe cell `c` with its flood fill, then run the win tests. */
    method Dig(c: Coord)
      requires Valid() && !isGameOver && !isFirstClick && InBounds(width, height, c) && !At(board, c).isMine
      modifies this`board, this`revealedCount, this`isGameOver, this`isGameWon, this`timer, this`flagsPlaced, this`events
      ensures Valid()
      ensures revealedCount == old(revealedCount) + Opens(old(board), width, height, c)
      ensures CheckedFrom(Flood(old(board), width, height, c), old(flagsPlaced), revealedCount, old(timer), old(events))
      ensures isGameWon <==> WinReached(Flood(old(board), width, height, c), width, height)
      ensures !old(At(board, c).isFlagged) ==> At(board, c).isRevealed
      ensures |old(events)| < |events| <==> isGameOver
      ensures forall i | |old(events)| <= i < |events| :: events[i] == Won
    {
      FloodClosed(board, width, height, c);
      FloodGrowth(board, width, height, c);
      RevealCell(c);
      FloodValid(c);
      CheckWinCondition();
    }

    /** `FloodInvariant` for the fields as `revealCell` leaves them. */
    twostate lemma FloodValid(c: Coord)
      requires old(Valid()) && !old(isGameOver) && !old(isFirstClick) && InBounds(old(width), old(height), c)
      requires !At(old(board), c).isMine
      requires width == old(width) && height == old(height) && mineCount == old(mineCount)
      requires isGameOver == old(isGameOver) && isGameWon == old(isGameWon) && isFirstClick == old(isFirstClick)
      requires timer == old(timer) && timeElapsed == old(timeElapsed) && flagsPlaced == old(flagsPlaced)
      requires board == Flood(old(board), width, height, c)
      requires revealedCount == old(revealedCount) + Opens(old(board), width, height, c)
      ensures Valid()
    {
      FloodInvariant(old(board), width, height, mineCount, isGameWon, timer, timeElapsed, flagsPlaced,
                     old(revealedCount), c);
    }

    /** game.js:326-343: a per-cell copy of the board for the solver (a value, so later moves do not change it). */
    method GetGameState() returns (state: Snapshot)
      requires Shaped(board, width, height)
      ensures IsSnapshotOf(state, board, width, height)
    {
      state := [];
      var y := 0;
      while y < height
        invariant 0 <= y <= height && |state| == y
        invariant forall i | 0 <= i < y :: |state[i]| == width
        invariant forall i, j | 0 <= i < y && 0 <= j < width :: state[i][j] == ViewOf(board[i][j])
      {
        var row: seq<View> := [];
        var x := 0;
        while x < width
          invariant 0 <= x <= width && |row| == x
          invariant forall j | 0 <= j < x :: row[j] == ViewOf(board[y][j])
        {
          row := row + [ViewOf(board[y][x])];
          x := x + 1;
        }
        state := state + [row];
        y := y + 1;
      }
    }
 
    /**
     * game.js:346-348: mines not yet flagged, as the header shows them. In play
     * it is the mine count less the flags on the board; after a win it is 0.
     */
    function RemainingMines(): (r: int)
      reads this
      ensures Valid() && !isGameOver ==> r == mineCount - |FlaggedSet(board, width, height)|
      ensures Valid() && isGameWon ==> r == 0
    {
      mineCount - flagsPlaced
    }

    /** game.js:351-353: the clock as three digits; it reads back as the elapsed seconds, never more than 999. */
    function FormattedTime(): (s: string)
      reads this
      requires Valid()
      ensures |s| == 3 && AllDigits(s)
      ensures Value(s) == if timeElapsed < 999 then timeElapsed else 999
    {
      Counter(if timeElapsed < 999 then timeElapsed else 999)
    }

    /**
     * game.js:356-358: the remaining-mines counter, never below 0; three digits
     * whenever the count is below 1000 (true of every preset).
     */
    function FormattedMineCount(): (s: string)
      reads this
      ensures AllDigits(s)
      ensures Value(s) == if RemainingMines() > 0 then RemainingMines() else 0
      ensures RemainingMines() < 1000 ==> |s| == 3
    {
      Counter(if RemainingMines() > 0 then RemainingMines() else 0)
    }
  }
}
