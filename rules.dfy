/**
 * The rules the engine of game.js keeps: its object invariant stated on the
 * values of its fields, the win test, and one lemma per kind of update saying
 * that the update keeps the invariant.
 */
module Rules {
  import opened Geometry
  import opened Board
  import opened Reveal
  import opened Display

  /**
   * The interval handle in `timer`: none, running, or stopped at 999 seconds
   * by the tick itself (which clears the interval but leaves the handle set,
   * so a later `startTimer` does not start a new one).
   */
  datatype Timer = NoTimer | Ticking | Halted

  /**
   * The two win tests of game.js:246-272 on a `w` x `h` board `g` with
   * `mineCount` mines and the counters `flags` and `revealed`: all safe cells
   * counted as revealed, or as many flags as mines with every mine flagged.
   */
  ghost predicate Winning(g: Grid, w: int, h: int, mineCount: int, flags: int, revealed: int) {
    revealed == w * h - mineCount || (flags == mineCount && AllMinesFlagged(g, w, h))
  }

  /**
   * The two ways to win that the counters stand for: every position that is
   * not a mine is revealed, or the flags lie exactly on the mines.
   */
  ghost predicate WinReached(g: Grid, w: int, h: int) {
    (forall c :: InBounds(w, h, c) && !At(g, c).isMine ==> At(g, c).isRevealed) ||
    FlaggedSet(g, w, h) == MineSet(g, w, h)
  }

  /**
   * The engine's object invariant, stated on the values of its fields. The
   * board has the configured size; every number is right; no flag sits on a
   * revealed cell; a game in play reveals no mine, marks no wrong flag and its
   * two counters count the flags and the revealed cells; a won game reveals no
   * mine and counts as many flags as mines; before the first click there are
   * no mines, nothing is revealed and the clock has not started; after it the
   * board holds exactly `mineCount` mines; the clock never passes 999. The size bound on `mineCount` holds for the three
   * presets and is what keeps the mine placement loop from running forever.
   */
  ghost predicate Invariant(g: Grid, w: int, h: int, mineCount: int, over: bool, won: bool, first: bool,
                            timer: Timer, time: int, flags: int, revealed: int) {
    Shaped(g, w, h) &&
    0 < w && 0 < h && 0 <= mineCount <= w * h - 9 &&
    0 <= time <= 999 && (timer == Ticking ==> time < 999) &&
    AdjacencyCorrect(g, w, h) && NoRevealedFlag(g, w, h) &&
    (won ==> over) &&
    (!over ==> InPlay(g, w, h, flags, revealed)) &&
    (won ==> NoRevealedMine(g, w, h) && flags == mineCount) &&
    (first ==> MineSet(g, w, h) == {} && RevealedSet(g, w, h) == {} && timer == NoTimer && time == 0) &&
    (!first ==> |MineSet(g, w, h)| == mineCount)
  }

  /** `init` (game.js:52-87): a board of blank cells with every counter at 0 satisfies the invariant. */
  lemma BlankInvariant(g: Grid, w: int, h: int, mineCount: int)
    requires Shaped(g, w, h) && 0 < w && 0 < h && 0 <= mineCount <= w * h - 9
    requires forall c :: InBounds(w, h, c) ==> At(g, c) == Blank
    ensures Invariant(g, w, h, mineCount, false, false, true, NoTimer, 0, 0, 0)
  {
    BlankFacts(g, w, h);
  }

  /**
   * The first click (game.js:164-169) keeps the invariant: the placement leaves
   * the game in play with the same counters, and the clock starts.
   */
  lemma DealInvariant(g0: Grid, g: Grid, w: int, h: int, mineCount: int, won: bool, timer: Timer, time: int,
                      flags: int, revealed: int, click: Coord)
    requires Invariant(g0, w, h, mineCount, false, won, true, timer, time, flags, revealed)
    requires Dealt(g0, g, w, h, click, mineCount)
    ensures Invariant(g, w, h, mineCount, false, won, false, Ticking, time, flags, revealed)
    ensures |MineSet(g, w, h)| == mineCount && !At(g, click).isMine
  {
    DealtInPlay(g0, g, w, h, click, mineCount, flags);
  }

  /**
   * A flood fill from a safe cell of a dealt game in play keeps the invariant,
   * with the revealed counter grown by the cells it opens.
   */
  lemma FloodInvariant(g: Grid, w: int, h: int, mineCount: int, won: bool, timer: Timer, time: int,
                       flags: int, revealed: int, c: Coord)
    requires Invariant(g, w, h, mineCount, false, won, false, timer, time, flags, revealed)
    requires InBounds(w, h, c) && !At(g, c).isMine
    ensures Invariant(Flood(g, w, h, c), w, h, mineCount, false, won, false, timer, time, flags,
                      revealed + Opens(g, w, h, c))
  {
    FloodInPlay(g, w, h, c, flags, revealed);
  }

  /**
   * A right click on an unrevealed cell of a game in play (game.js:204-206)
   * keeps the invariant, with the flag counter moved by one.
   */
  lemma ToggleInvariant(g: Grid, w: int, h: int, mineCount: int, won: bool, first: bool, timer: Timer,
                        time: int, flags: int, revealed: int, c: Coord)
    requires Invariant(g, w, h, mineCount, false, won, first, timer, time, flags, revealed)
    requires InBounds(w, h, c) && !At(g, c).isRevealed
    ensures Invariant(Toggled(g, c), w, h, mineCount, false, won, first, timer, time,
                      flags + (if At(Toggled(g, c), c).isFlagged then 1 else -1), revealed)
    ensures flags + (if At(Toggled(g, c), c).isFlagged then 1 else -1) == |FlaggedSet(Toggled(g, c), w, h)|
  {
    ToggleInPlay(g, w, h, c, flags, revealed);
  }

  /**
   * `gameOver` (game.js:275-309) keeps the invariant: the game ends, the clock
   * stops, and after a win the flag counter equals the mine count and every
   * mine is flagged. A win is only declared on a board without an opened mine.
   */
  lemma CleanInvariant(isWin: bool, g0: Grid, g1: Grid, w: int, h: int, mineCount: int, over: bool, won: bool,
                       first: bool, timer: Timer, time: int, flags: int, revealed: int)
    requires Invariant(g0, w, h, mineCount, over, won, first, timer, time, flags, revealed)
    requires isWin ==> NoRevealedMine(g0, w, h)
    requires Shaped(g1, w, h) && forall c :: InBounds(w, h, c) ==> At(g1, c) == Cleaned(isWin, At(g0, c))
    ensures Invariant(g1, w, h, mineCount, true, isWin, first, NoTimer, time,
                      if isWin then mineCount else flags, revealed)
    ensures isWin ==> AllMinesFlagged(g1, w, h)
  {
    CleanedFacts(isWin, g0, g1, w, h);
  }

  /**
   * On a game in play past its first click, the counter tests of game.js:246-272
   * pass exactly when the game is won on the board: the revealed counter
   * reaches the safe count only once every safe position is open, and the flag
   * counter with every mine flagged only when the flags are the mines.
   */
  lemma WinningMeans(g: Grid, w: int, h: int, mineCount: int, won: bool, timer: Timer, time: int,
                     flags: int, revealed: int)
    requires Invariant(g, w, h, mineCount, false, won, false, timer, time, flags, revealed)
    ensures Winning(g, w, h, mineCount, flags, revealed) <==> WinReached(g, w, h)
  {
    SafeWinCount(g, w, h);
    FlagWinCount(g, w, h);
  }

  /**
   * Before the first click there are no mines and nothing is revealed, so the
   * safe-cell test fails and the flag test passes exactly when the flag
   * counter equals the mine count: placing `mineCount` flags wins a game
   * that has not started.
   */
  lemma WinningBeforeDeal(g: Grid, w: int, h: int, mineCount: int, won: bool, timer: Timer, time: int,
                          flags: int, revealed: int)
    requires Invariant(g, w, h, mineCount, false, won, true, timer, time, flags, revealed)
    ensures Winning(g, w, h, mineCount, flags, revealed) <==> flags == mineCount
  {
    forall c | InBounds(w, h, c)
      ensures !At(g, c).isMine
    {
      assert c !in MineSet(g, w, h);
    }
  }
}
