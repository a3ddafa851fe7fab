# Minesweeper game engine and solver

A model of a browser Minesweeper with an automatic solver. The model covers three parts:

- **The engine (`MinesweeperGame`, game.js).** It holds the board of cells. Each cell records whether it is a mine, revealed or flagged, whether a flag is wrong, and how many of its neighbours are mines. The engine lays the mines after the first click, away from that click. A click on a zero cell opens its whole region. A right click toggles a flag. The game is won when every safe cell is open or the flags sit exactly on the mines. It is lost when a mine is opened.
- **The solver (`MinesweeperAI`, ai.js).** Each turn it takes a snapshot of the board. It picks one move, in this order:
  - a starting cell near the centre of the board;
  - a flag or an opening deduced by comparing the constraints of two numbered cells;
  - an opening next to a number whose mines are all flagged;
  - a flag where a number's remaining mines fill its hidden neighbours;
  - a ranked guess.

  When a run hits a mine, the solver remembers the cell.
- **The page's replay (main.js).** When a solver run loses, the page captures the minefield. "Retry with the same mines" rebuilds the board from that capture, resets the solver and runs it again.

## Layout

- `geometry.dfy` (`Geometry`): coordinates, the eight-neighbour ring, row-major scans, filters.
- `board.dfy` (`Board`): cells, boards as rows of cells, and the facts about a board:
  - the set of mines;
  - the set of flags;
  - the revealed cells;
  - correct numbers.

  It also holds the end-of-game cell rewrites, the flag toggle and the solver's read-only snapshot.
- `reveal.dfy` (`Reveal`): the recursive flood fill of `revealCell` as a function, with its growth, count and safety lemmas.
- `display.dfy` (`Display`): decimal rendering and `padStart`, used for the 3-digit counters.
- `rules.dfy` (`Rules`): the engine's invariant, stated on the values of its fields, and the lemmas that each kind of step preserves it.
- `engine.dfy` (`Engine`): the `Game` class. Its methods update the fields in place.
- `deduction.dfy` (`Deduction`): what the solver concludes from a snapshot, as definitions, with their soundness lemmas.
- `solver.dfy` (`Solver`): the `MinesweeperAI` class. Each of its scans is proved to compute the matching `Deduction` definition.
- `main.dfy` (`Main`): new game, replay on the same minefield, and the capture-and-rebuild round trip.

The three callbacks the page installs on the engine are modelled as follows:

- `onGameWon` and `onGameOver` become an event log on the game (`events`). The solver methods `ClickCell` and `FlagCell` call the engine and then run the page's handlers for the events that call produced.
- `onGameUpdate` (the screen refresh) is left out.

## Model

| member | source | states |
|---|---|---|
| Engine.Game.constructor | game.js:5-28 | A new game is the 9x9, 10-mine preset with an empty board, the first click pending, no timer, zero counters and nothing saved. |
| Engine.Game.SetDifficulty | game.js:31-49 | Each of the three preset names sets its width, height and mine count; any other name changes nothing; the configuration bound of the invariant is kept. |
| Engine.Game.Init | game.js:52-87 | The game afterwards satisfies the invariant, every cell is a closed, unflagged non-mine with number 0, the counters and clock are cleared and the first click is pending. |
| Rules.BlankInvariant | game.js:52-87 | A blank board with every counter at zero satisfies the engine invariant before the first click. |
| Engine.Game.StartTimer | game.js:140-153 | The interval is started only when none exists. |
| Engine.Game.Tick | game.js:142-150 | One tick adds one second; the interval is cleared once the clock reaches 999, so the clock never passes 999. |
| Engine.Game.CountAdjacent | game.js:117-131 | The count is the number of mines among the in-bounds neighbours of the cell. |
| Engine.Game.CalculateAdjacentMines | game.js:111-137 | Every non-mine cell afterwards carries the true number of neighbouring mines; mines and all marks are unchanged. |
| Engine.DrawMines | game.js:93-104 | Exactly `count` new mines are placed, each on a cell that held no mine and lies outside the 3x3 block around the first click. |
| Engine.Game.PlaceMines | game.js:90-108 | The board afterwards has the old mines plus `mineCount` new ones away from the click, the same marks, and correct numbers. |
| Board.PlacedAndCounted | game.js:90-137 | Placement then numbering: the mine set is the old one plus the placed set, disjoint from it, no placed mine near the click, marks unchanged, numbers correct. |
| Rules.DealInvariant | game.js:164-169 | Dealing the mines on the first click keeps the invariant, starts the clock, and leaves exactly `mineCount` mines with none on the clicked cell. |
| Engine.Game.FirstClick | game.js:164-169 | The first click is consumed, the clock starts, and the board is dealt away from the click. |
| Reveal.Opened | game.js:225 | Opening a cell changes its revealed mark and nothing else on the board. |
| Reveal.Flood | game.js:218-243 | The flood fill keeps the board's shape and never increases the number of closed cells. |
| Reveal.FloodGrowth | game.js:218-243 | The flood fill only opens cells: mines, numbers and flags stay, and no revealed cell closes. |
| Reveal.FloodOpens | game.js:222-226 | The revealed-cell count grows by exactly the number of cells the fill opens. |
| Reveal.FloodClosed | game.js:222-242 | Afterwards the clicked cell is open or flagged, and every neighbour of an opened zero cell is open or flagged. |
| Reveal.FloodBounded | game.js:218-243 | The fill opens nothing but the clicked cell and neighbours of zero cells it opened itself. |
| Reveal.FloodAroundBounded | game.js:228-242 | The loop over a zero cell's neighbours opens nothing but those neighbours and neighbours of zero cells it opened. |
| Reveal.FloodSafe | game.js:228-242 | On a correctly numbered board, a fill started on a non-mine opens no mine. |
| Reveal.FloodInPlay | game.js:218-243 | A fill from a safe cell keeps the numbers, the mine set and the in-play facts, with the revealed count raised by the cells opened. |
| Rules.FloodInvariant | game.js:185-187 | Opening a safe cell in play keeps the engine invariant. |
| Engine.Game.RevealCell | game.js:218-243 | The recursive reveal leaves the board of the flood fill and adds the number of cells it opened to the revealed count. |
| Board.SafeWinCount | game.js:248-251 | With no opened mine, the revealed count equals the safe-cell count exactly when every safe cell is open. |
| Board.FlagWinCount | game.js:254-270 | As many flags as mines with every mine flagged is the same as the flags being exactly the mines. |
| Engine.Game.AllMinesFlaggedScan | game.js:256-266 | The scan answers true exactly when every mine is flagged. |
| Engine.Game.CheckWinCondition | game.js:246-272 | If the safe-cell test or the flag test passes, the game is won from the current board (twice when the safe-cell test passed); otherwise nothing changes. Past the first click the game is won exactly when every safe cell is open or the flags are exactly the mines; before it, exactly when the flag counter equals the mine count. |
| Rules.WinningMeans | game.js:246-272 | Past the first click, the two counter tests pass together exactly when every safe cell is open or the flagged cells are exactly the mines. |
| Rules.WinningBeforeDeal | game.js:246-272 | Before the first click the board holds no mine, so the tests pass exactly when the flag counter equals the mine count. |
| Board.LossCell | game.js:286-298 | After a loss a cell is revealed exactly when it was revealed or is an unflagged mine, and its flag is marked wrong exactly when it was wrong or flags a non-mine. |
| Board.WinCell | game.js:300-308 | After a win a cell is flagged exactly when it was flagged or is a mine; nothing else about it changes. |
| Board.WinCellIdempotent | game.js:300-308 | Running the win clean-up twice gives the same cell as once. |
| Board.CleanedFacts | game.js:286-309 | Either clean-up keeps the mines and the numbers and puts no flag on a revealed cell; a win leaves every mine flagged and no mine open; a win leaves the revealed cells unchanged. |
| Engine.Game.CleanUp | game.js:286-309 | Every cell is rewritten by the loss or win clean-up and the board keeps its shape. |
| Rules.CleanInvariant | game.js:275-309 | Ending the game, won or lost, keeps the invariant, clears the clock, and on a win sets the flag count to the mine count with every mine flagged. |
| Engine.Game.GameOver | game.js:275-323 | A win leaves the won board with every mine flagged; a loss leaves every unflagged mine revealed and the flag count unchanged; the matching event is appended. |
| Board.Toggled | game.js:205 | A right click flips the flag of that one cell and nothing else. |
| Board.ToggleTwice | game.js:205 | Toggling the same cell twice restores the board. |
| Rules.ToggleInvariant | game.js:204-206 | Toggling a closed cell in play keeps the invariant, and the adjusted flag counter equals the number of flags on the board. |
| Engine.Game.HandleCellRightClick | game.js:194-215 | Ignored when the game is over or won or the cell is revealed; otherwise the flag is toggled, the counter moves by one and equals the flags on the board, and the win tests run on the toggled board: past the first click the game is won exactly when the toggled board has every safe cell open or its flags exactly on the mines. |
| Engine.Game.HandleCellClick | game.js:156-191 | An ignored click changes nothing; the first click deals the mines away from the cell and never hits a mine; a mine hit ends the game as lost; any other click floods from the cell and runs the win tests; an accepted click always leaves the cell open. |
| Engine.Game.OpenPlayable | game.js:164-190 | On a playable cell: a hit happens exactly when the dealt board has a mine there; then the loss clean-up, otherwise the flood fill and the win tests; either way the cell ends open. |
| Engine.Game.Dig | game.js:185-190 | The revealed count grows by the cells the fill opens, the unflagged clicked cell ends open, and the game is won exactly when the flooded board has every safe cell open or its flags exactly on the mines. |
| Engine.Game.GetGameState | game.js:326-343 | The snapshot has the board's size and, cell by cell, its mine, revealed, flagged and number fields. |
| Board.SnapshotUnique | game.js:326-343 | The snapshot of a board is unique. |
| Engine.Game.RemainingMines | game.js:346-348 | In play, the remaining count is the mine count minus the flags on the board; after a win it is 0. |
| Engine.Game.FormattedTime | game.js:351-353 | Three digits whose value is the elapsed time capped at 999. |
| Engine.Game.FormattedMineCount | game.js:356-358 | Digits whose value is the remaining count, or 0 when that is negative, three of them while the count is below 1000. |
| Display.Counter | game.js:351-358 | The counter text is all digits, reads back as the number, and has three characters below 1000. |
| Display.DecimalValue | game.js:352 | Rendering a number in decimal and reading it back gives the number. |
| Display.PadStart | game.js:352 | Padding keeps the string as a suffix, fills the front with zeros, and reaches the target length unless the string is already longer. |
| Solver.MinesweeperAI.constructor | ai.js:6-16 | A new solver is stopped, has no last move and no failure memory. |
| Solver.MinesweeperAI.StartSolving | ai.js:19-29 | Ignored while running; otherwise a continuous run starts (running, not step-by-step, ticking). |
| Solver.MinesweeperAI.StopSolving | ai.js:41-48 | The solver is stopped: not running, not step-by-step, no interval. |
| Solver.MinesweeperAI.Reset | ai.js:558-565 | The solver is stopped with no last move and no failed-run mark, and the failure memory is kept. |
| Solver.MinesweeperAI.RecordFailurePosition | ai.js:568-582 | The last failure is the cell; the cell is appended to the failure list only when not already there, so the list afterwards is the old one plus the cell. |
| Solver.MinesweeperAI.ClearFailureRecords | ai.js:585-589 | The failure list and the last failure are cleared. |
| Solver.MinesweeperAI.GetAdjacentCells | ai.js:538-555 | The list is exactly the in-bounds neighbours of the cell, with no repeats. |
| Solver.MinesweeperAI.IsCenterOfUnrevealedNineGrid | ai.js:514-535 | The answer is the definition of a closed 3x3 centre: in bounds, with the cell and all eight neighbours on the board and unrevealed. |
| Deduction.HiddenOf | ai.js:358 | The hidden list of a cell holds exactly its in-bounds unrevealed neighbours, without repeats. |
| Deduction.ConstraintOf | ai.js:355-368 | A constraint records the cell's hidden neighbours, how many of them are flagged, and its number minus those flags, never below 0. |
| Solver.MinesweeperAI.GetConstraintForCell | ai.js:355-368 | The solver's constraint is the constraint of the cell. |
| Deduction.UnflaggedMinesCount | ai.js:355-368 | On a consistent snapshot a revealed cell's number is at least its flags, and its mines-left count is exactly the number of unflagged mines among its hidden neighbours. |
| Deduction.SnapshotConsistent | game.js:326-343 | The snapshot of a board whose numbers are right, which opens no mine and whose flags all sit on mines, is consistent. |
| Deduction.Shared | ai.js:371-375 | The overlap holds exactly the cells in both lists. |
| Deduction.Only | ai.js:294-295 | The cells unique to one list are exactly those missing from the other. |
| Deduction.PushFresh | ai.js:300-306 | Pushing keeps the old list as a prefix, appends each cell not yet processed, flagged or revealed once, and marks exactly those cells processed. |
| Solver.MinesweeperAI.PushNew | ai.js:300-306 | The loop's list and processed set are those of the push definition. |
| Deduction.Rule1Sound | ai.js:298-307 | Rule 1 is sound: when one hidden set lies inside the other and both miss as many mines, the extra cells hold no unflagged mine. |
| Deduction.Rule2Dead | ai.js:310 | Rule 2 never fires on a consistent snapshot: a hidden set inside another cannot miss more mines than the larger one. |
| Deduction.Rule3 | ai.js:324-345 | Rule 3 adds only when each side has one unique cell, the overlap is one cell and the counts differ by one; it adds the mine on the larger side and the safe cell on the other, without touching the processed set. |
| Deduction.Rule3Sound | ai.js:335-343 | Rule 3 is sound: with one unique cell per side and counts differing by one, the cell on the larger side is an unflagged mine and the other holds no unflagged mine. |
| Deduction.PairStepJustified | ai.js:289-345 | Comparing two constraints adds only in-bounds, unrevealed cells, and on a consistent snapshot only true mines and non-mines. |
| Deduction.ReasoningJustified | ai.js:256-352 | Every cell the full pairwise reasoning lists is in bounds and unrevealed; on a consistent snapshot every listed mine is an unflagged mine, and every listed safe cell holds no unflagged mine. |
| Solver.MinesweeperAI.ReasonPair | ai.js:289-345 | The loop over one pair computes the rules' step for those two cells. |
| Solver.MinesweeperAI.ReasonWith | ai.js:277-346 | The second cell is compared only when it differs from the first and is a numbered cell with hidden neighbours. |
| Solver.MinesweeperAI.CompareWithOthers | ai.js:276-347 | The inner scan compares the first cell with every cell in row-major order. |
| Solver.MinesweeperAI.ReasonFrom | ai.js:263-348 | A cell starts comparisons only when it is a numbered revealed non-mine with hidden neighbours. |
| Solver.MinesweeperAI.AdvancedLogicalReasoning | ai.js:256-352 | The two lists returned are those of the reasoning definition, so the soundness lemmas above apply to them. |
| Deduction.SafeFrom | ai.js:386-407 | A cell yields a safe move only when it is a revealed number whose flags equal it; the move is an unflagged hidden neighbour that is not a closed 3x3 centre. |
| Solver.MinesweeperAI.SafeFromCell | ai.js:386-407 | The per-cell scan computes that definition. |
| Solver.MinesweeperAI.FirstOpen | ai.js:402-406 | The first listed cell that is not a closed 3x3 centre, if any. |
| Solver.MinesweeperAI.FindSafeMove | ai.js:383-411 | The scan returns the move of the first cell in row-major order that yields one. |
| Deduction.SafeMoveSound | ai.js:383-411 | There is no safe move exactly when no cell yields one; a safe move is an in-bounds, closed, unflagged cell that is not a 3x3 centre, and on a consistent snapshot not a mine. |
| Deduction.MineFrom | ai.js:417-433 | A cell yields a flag only when its unflagged hidden neighbours number exactly its mines left; the flag goes on one of them. |
| Solver.MinesweeperAI.MineFromCell | ai.js:417-433 | The per-cell scan computes that definition. |
| Solver.MinesweeperAI.FindMineToFlag | ai.js:414-437 | The scan returns the flag of the first cell in row-major order that yields one. |
| Deduction.MineToFlagSound | ai.js:414-437 | There is nothing to flag exactly when no cell yields a flag; the cell to flag is in-bounds, closed and unflagged, and on a consistent snapshot a mine. |
| Solver.InformedByFilter | ai.js:460-461 | A cell has information exactly when the filtered list of its revealed, non-mine, positively numbered neighbours is non-empty. |
| Solver.MinesweeperAI.InformedProbability | ai.js:460-483 | Any informed cell gets probability 0, whatever its neighbours show. |
| Solver.MinesweeperAI.EntryAt | ai.js:454-496 | The entry of a cell is its definition: probability 0.15 without information and 0 with it, and the centre mark. |
| Deduction.Entries | ai.js:445-498 | The list holds exactly the entries of the closed, unflagged cells scanned. |
| Deduction.CompareRank | ai.js:501-508 | The comparator orders entries by rank (information first, then non-centre, then probability), and is antisymmetric. |
| Deduction.FirstLeast | ai.js:501-510 | The index chosen is of the first entry with the least rank, and is absent exactly when the list is empty. |
| Deduction.BestGuessSpec | ai.js:440-511 | There is no guess exactly when no cell is closed and unflagged; the guess is a candidate ranked no worse than any other, and strictly better than every earlier cell. |
| Deduction.GuessPreference | ai.js:501-510 | When some candidate has information, the guess has it; a centre is guessed only when every candidate with the same information is a centre. |
| Solver.MinesweeperAI.EnhancedProbabilityAnalysis | ai.js:440-511 | The analysis returns the best guess of the definition. |
| Solver.MinesweeperAI.KeepOpen | ai.js:86-89 | The deduced safe cells filtered to those that are not closed 3x3 centres. |
| Deduction.DecideSound | ai.js:71-123 | The chosen move targets an in-bounds closed cell; no move only when every cell is open or flagged; a guess is never on a flag; on a consistent snapshot a flag goes on an unflagged mine, and an opening never on an unflagged mine. |
| Solver.MinesweeperAI.ChooseMove | ai.js:71-116 | The move chosen is the one the definition picks in priority order. |
| Solver.MinesweeperAI.HasRevealedInCenter | ai.js:138-151 | The answer is whether any on-board cell of the 3x3 block around the middle is revealed. |
| Deduction.CentreAreaCells | ai.js:169-178 | The centre area holds exactly the in-bounds cells within two of the middle in both directions. |
| Solver.MinesweeperAI.CenterArea | ai.js:169-178 | The loop builds the centre area of the definition. |
| Deduction.TopBottom | ai.js:183-186 | The top and bottom rows contribute two cells per column. |
| Deduction.LeftRight | ai.js:188-191 | The side columns contribute two cells per inner row. |
| Solver.MinesweeperAI.EdgePositions | ai.js:181-191 | The edge list is the top and bottom rows followed by the side columns. |
| Deduction.Pool | ai.js:157-211 | Every starting candidate is in bounds, not a failed cell and not a closed 3x3 centre. |
| Deduction.PoolHasCorner | ai.js:160-211 | After a failure, the corner is a starting candidate unless it is the failed cell. |
| Solver.MinesweeperAI.KeepEligible | ai.js:197-210 | The filter keeps exactly the eligible candidates. |
| Solver.MinesweeperAI.PoolPositions | ai.js:157-211 | The loop builds the candidate pool of the definition. |
| Deduction.Ring | ai.js:217-226 | The fallback ring holds exactly the eight cells around the middle. |
| Solver.MinesweeperAI.StarterPositions | ai.js:153-231 | The list is the pool, or the ring around the middle when the pool is empty and nothing near the middle is revealed. |
| Solver.Shuffle | ai.js:233-237 | The shuffle permutes the list. |
| Deduction.FirstPick | ai.js:240-252 | The pick is a listed cell or the middle. |
| Deduction.PickFrom | ai.js:240-252 | The pick from a permutation is in bounds and is a listed cell, or the middle when no listed cell is on the board. |
| Deduction.FirstMoveSound | ai.js:153-252 | The first move is in bounds; with a non-empty pool it is a pool cell, not a failed cell and not a closed centre; otherwise it is the middle or a ring cell. |
| Solver.MinesweeperAI.PickStart | ai.js:240-249 | The loop returns the first in-bounds cell of the shuffled list, or the middle. |
| Solver.MinesweeperAI.ChooseStart | ai.js:132-249 | The start is in bounds; it avoids failed cells and closed centres when the pool has any candidate; otherwise it is the middle or next to it. |
| Solver.MinesweeperAI.MakeFirstMove | ai.js:132-253 | The first move recorded carries the guarantees of the chosen start; a click that ends the game stops the solver, and one that does not leaves the run flags alone. |
| Solver.MinesweeperAI.GameClick | game.js:156-191 | For the solver: an ignored click changes nothing, an accepted click leaves the cell open, a first click is never a hit, a hit means a lost game, an over game stays over, events are appended exactly when the click ends the game, and otherwise only win events fire. |
| Solver.MinesweeperAI.ClickCell | game.js:156-191 | A hit while running, or after a failed run, records the cell as failed before the loss handler stops the solver; any other click leaves the failure memory alone; a click that ends the game stops the solver, and one that does not leaves the run flags alone. |
| Solver.MinesweeperAI.MineHit | game.js:172-181 | After a hit the solver is stopped, and the cell is the last failure and in the failure list exactly when a run is or was going on. |
| Solver.MinesweeperAI.FlagCell | game.js:194-215 | A right click toggles the flag when the engine accepts it and leaves the board alone otherwise; it leaves the failure memory alone; a click that ends the game stops the solver, and one that does not leaves the run flags alone. |
| Solver.MinesweeperAI.PlayMove | ai.js:66-127 | A flag move is a right click with that click's board; any other move but no move is a left click that leaves the cell open when it is playable and the board unchanged otherwise; a deduced move returns right after its click and leaves the run flags alone unless the game ended; a guess or no move stops a step-by-step run; a game that ends stops the solver. |
| Solver.MinesweeperAI.MakeNextMove | ai.js:56-129 | When the game is over or the solver stopped, it stops and nothing else changes; on the first click it plays a start move; otherwise it plays the move the definition picks from the snapshot; a move that ends the game stops the solver, a guess or no move stops a step-by-step run, and a deduced move that leaves the game going keeps the run going. |
| Solver.MinesweeperAI.StepSolve | ai.js:32-38 | Ignored during a continuous run; on an ended game the solver stops and the game is unchanged; otherwise one move is played, chosen as the definition picks it, and the step run goes on exactly unless the game ended or the move was a guess or no move. |
| Solver.MinesweeperAI.CaptureMinePositions | main.js:306-314 | The captured list is the mined cells of the snapshot in row-major order. |
| Solver.MinePositionsOf | main.js:306-314 | The capture lists exactly the board's mines, each once, in row-major order. |
| Solver.MinesweeperAI.OnGameOver | main.js:290-327 | The solver stops; the failed-run mark is set if it was running or already set; the mines are saved exactly when the mark is set, and cleared otherwise. |
| Solver.MinesweeperAI.OnGameWon | main.js:329-332 | The solver stops. |
| Solver.MinesweeperAI.WonCallbacks | main.js:329-332 | The win handler runs once per win event: the solver is stopped if any fired and unchanged otherwise. |
| Main.InitGame | main.js:30-51 | A new game at the chosen difficulty with a blank board, the solver stopped and its failure memory cleared. |
| Main.RebuildBoard | main.js:199-214 | Every rebuilt cell is closed and unflagged, and a mine exactly when its position is in the list. |
| Main.NumberedRebuilt | main.js:217-236 | Numbering the rebuilt board keeps each mine where the list put it and every cell closed and unmarked. |
| Main.RenumberedBoard | main.js:198-236 | The rebuilt board has the listed mines, nothing open or flagged, and correct numbers, and meets the engine invariant past the first click. |
| Main.ClearedRun | main.js:184-196 | The end-of-game flags, the counters and the clock are cleared and the first click is marked as done. |
| Main.CapturedMinefield | main.js:306-314 | The capture of a board past its first click lists exactly `mineCount` on-board positions, none twice: a minefield fit for the replay. |
| Main.RebuiltInvariant | main.js:183-236 | The board rebuilt from such a minefield, with zero counters, satisfies the engine invariant with the first click behind it. |
| Main.ReplayBoard | main.js:183-238 | The game is in play past its first click with zero counters, no clock, and the listed minefield with correct numbers. |
| Main.ResetGameWithSameMines | main.js:168-250 | Without a saved minefield it starts a new game. With one it replays that minefield with nothing open or flagged, and stops and resets the solver while keeping its failure memory. |
| Main.RetryFirstMove | main.js:168-269 | A retry as the page runs it: with a saved minefield, the solver's first turn is a guess on the top-left corner, whatever failures are on record. |
| Deduction.ClosedBoardGuess | ai.js:56-127 | On a board with nothing revealed or flagged, the move the solver decides past the first click is a guess on the top-left corner. |
| Deduction.NothingDeduced | ai.js:256-437 | With nothing revealed, the pairwise reasoning finds nothing and neither single-number scan yields a move. |
| Deduction.OuterIdle | ai.js:263-348 | A scan over cells none of which can start a comparison leaves the lists as they were. |
| Deduction.CornerGuess | ai.js:440-511 | With nothing revealed or flagged, the best guess is the top-left corner. |
| Deduction.ReplayMoveAvoids | ai.js:130-252 | The corrected first move of a replay is a first move on the board; it avoids every recorded failure and every closed 3x3 centre whenever the starting pool is non-empty, and in particular whenever the top-right corner is not itself a failure. |
| Deduction.PoolHasTopRight | ai.js:157-211 | After a failure, the top-right corner is a starting candidate unless it is itself a failure. |
| Main.CaptureRebuild | main.js:199-314 | Capture then rebuild gives back the same minefield, and the same number on every safe cell. |
| Main.ResumeReplay | main.js:265-269 | The solver is running again and marked as a retry of a failed run. |
| Main.ForgetFailedRun | main.js:323-326 | The failed-run mark is dropped. |

## Left out

- Rendering, the DOM, dialogs, buttons, the window-resize and keyboard handlers, the difficulty dropdown and the speed slider. The difficulty is a parameter; the step delay does not change any state that is modelled.
- `setInterval`, `setTimeout` and `clearInterval`:
  - a timer is a three-state value (none, ticking, halted at 999), and `Tick` is one firing;
  - the solver's repeating interval is the `scanning` flag, and the caller runs `MakeNextMove` once per tick;
  - the two delayed page callbacks are `ResumeReplay` and `ForgetFailedRun`, which run when their delay is over.
- `Math.random`:
  - the mine placement draws an arbitrary set of the right size from the eligible cells;
  - the solver's shuffle is an arbitrary permutation (`Shuffle` promises only the permutation).
- The `onGameUpdate` refresh callback, and all console output.
- `lastMoveReason`, the solver's text explanation of each move. The `Move` datatype records the kind of move and its cell instead.
- `Array.prototype.sort` in the probability analysis. The first entry of least rank is taken instead. The comparator's ties fall back to scan order, which the sort of a modern engine keeps stable.
- The deep copies through JSON in main.js: the lists are values in the model.
- The `try`/`catch` fallback of `resetGameWithSameMines`: no modelled step throws.
- The `game.wasRunningWhenFailed = false` write at main.js:190. It targets a field the game never reads.
- The renumbering loop at main.js:217-236 is modelled by the engine's own `CalculateAdjacentMines`. The two loops are the same.
- Engine.Game.HandleCellClick: requires an on-board cell. Every click the page or the solver makes is on the board, and an off-board index would throw in the source.
- Engine.Game.HandleCellRightClick: requires an on-board cell, for the same reason.
- Engine.Game.Init: requires a configuration with at least nine cells to spare beyond the mines. All three presets meet it. Without it the first-click placement loop could fail to end for some clicks: it draws only from the cells outside the 3x3 block around the click, which leaves out nine cells in the middle of the board but only four at a corner.
- Main.ReplayBoard, Main.ResetGameWithSameMines and Main.RetryFirstMove: require the saved minefield to be exactly `mineCount` distinct on-board positions (`Minefield`). The page meets it: the retry button appears only in the game-over dialog of an AI loss of the current game (main.js:157-161), the dialog is hidden by every new game (main.js:50), including a difficulty change (main.js:336), and `CapturedMinefield` proves that the capture is such a minefield.
- Board updates: the source writes single cells of its row arrays in place; the model's `board` field is a `seq<seq<Cell>>` and every cell update reassigns the whole board, so aliasing of rows is not modelled (nothing in the source keeps a row reference).
- Engine.Game.PlaceMines: requires enough eligible cells. The source's random retry loop would not terminate otherwise.
- Solver.MinesweeperAI.MakeNextMove: states which move is played, not the board that move produces. What each engine call does to the board is stated on `HandleCellClick` and `HandleCellRightClick`.
- Solver.MinesweeperAI.ChooseStart: states where the start lies, not which candidate the random shuffle puts first.

The model keeps these behaviours of the source as written:

- **The guess probability.** The per-neighbour probability in ai.js:472-476 divides by the `.length` of a number. That is undefined, so every informed cell gets probability 0 (`InformedProbability`).
- **Rule 2 never fires.** On a consistent board its condition cannot hold (`Rule2Dead`).
- **Rule 3 is unfiltered.** It pushes its cells without the processed, flagged and revealed checks of rules 1 and 2.
- **A safe-cell win is declared twice.** The win clean-up sets the flag counter to the mine count, so the flag test that follows also passes (`CheckWinCondition` appends two win events).
- **The retry never reads the failure memory.** See the finding below. `MakeNextMove` and `RetryFirstMove` keep the source's behaviour; `ReplayMove` is the corrected first move, stated beside it.
- **A flag win before the first click.** On a board with no mines yet, the flag test passes as soon as the flag counter equals the mine count.

## Findings

| source | as written | input that shows it | evidently intended | confidence | as-written member | corrected member |
|---|---|---|---|---|---|---|
| main.js:186 with ai.js:66-69 and ai.js:157 | The replay marks the first click as done, so the solver never runs its first-move choice, the only code that reads the failure list; its first turn guesses the top-left corner of the closed board. | A saved minefield with a mine at (0, 0): every retry opens (0, 0) and loses, and from the second retry on (0, 0) is a recorded failure. | The replay's first move avoids the recorded failures (ai.js:14, ai.js:155-157). | not executed | Main.RetryFirstMove (with Deduction.ClosedBoardGuess) | Deduction.ReplayMoveAvoids (on Deduction.ReplayMove) |
