/**
 * The solver object of ai.js, `MinesweeperAI`: its run flags, its memory of
 * the cells where a run hit a mine, the scans it makes over a snapshot of the
 * board, and the one engine call per turn it derives from them. Each scan is
 * proved to compute the matching definition of the Deduction module, so what
 * is proved there about the definitions holds of the moves the solver makes.
 *
 * The repeating `setInterval` that drives `makeNextMove` is not modelled: a
 * caller invokes `MakeNextMove` once per tick while `scanning` is set.
 * `Math.random` in the first-move shuffle is an arbitrary choice.
 */
module Solver {
  import opened Geometry
  import opened Board
  import opened Engine
  import opened Deduction

  /** What the neighbour loop adds at the offset (`dx`, `dy`): the cell there, when it is not `c` and is on the board. */
  function Step(c: Coord, w: int, h: int, dy: int, dx: int): seq<Coord> {
    var m := Coord(c.x + dx, c.y + dy);
    if !(dx == 0 && dy == 0) && InBounds(w, h, m) then [m] else []
  }

  /** The neighbours collected by the `dy`/`dx` loop of ai.js:538-555 before it reaches the offset (`dx`, `dy`). */
  function Upto(c: Coord, w: int, h: int, dy: int, dx: int): seq<Coord>
    requires -1 <= dy <= 2 && -1 <= dx <= 2
    decreases dy + 1, dx + 1
  {
    if dx > -1 then Upto(c, w, h, dy, dx - 1) + Step(c, w, h, dy, dx - 1)
    else if dy > -1 then Upto(c, w, h, dy - 1, 2)
    else []
  }

  /** The position in `Offsets(c)` of the offset (`dx`, `dy`), the centre skipped. */
  function Slot(dy: int, dx: int): int {
    var k := 3 * (dy + 1) + (dx + 1);
    if k > 4 then k - 1 else k
  }

  lemma SlotCell(c: Coord, dy: int, dx: int)
    requires -1 <= dy <= 1 && -1 <= dx <= 1 && !(dx == 0 && dy == 0)
    ensures 0 <= Slot(dy, dx) < 8 && Slot(dy, dx + 1) == Slot(dy, dx) + 1
    ensures Offsets(c)[Slot(dy, dx)] == Coord(c.x + dx, c.y + dy)
  {
  }

  /** The in-bounds entries among the first `k` of `a`, in order. */
  function InBoundsPrefix(a: seq<Coord>, w: int, h: int, k: nat): seq<Coord>
    requires k <= |a|
  {
    if k == 0 then [] else InBoundsPrefix(a, w, h, k - 1) + if InBounds(w, h, a[k - 1]) then [a[k - 1]] else []
  }

  lemma {:induction false} InBoundsPrefixFilter(a: seq<Coord>, w: int, h: int, k: nat)
    requires k <= |a|
    ensures InBoundsPrefix(a, w, h, k) == Filter(a[..k], n => InBounds(w, h, n))
  {
    if k > 0 {
      InBoundsPrefixFilter(a, w, h, k - 1);
      assert a[..k] == a[..k - 1] + [a[k - 1]];
      FilterAppend(a[..k - 1], a[k - 1], n => InBounds(w, h, n));
    }
  }

  /** `a` lists the offsets from `c` at their slots, as `Offsets(c)` does. */
  ghost predicate Slotted(a: seq<Coord>, c: Coord) {
    |a| == 8 &&
    forall dy, dx | -1 <= dy <= 1 && -1 <= dx <= 1 && !(dx == 0 && dy == 0) ::
      0 <= Slot(dy, dx) < 8 && a[Slot(dy, dx)] == Coord(c.x + dx, c.y + dy)
  }

  lemma OffsetsSlotted(c: Coord)
    ensures Slotted(Offsets(c), c)
  {
    forall dy, dx | -1 <= dy <= 1 && -1 <= dx <= 1 && !(dx == 0 && dy == 0)
      ensures 0 <= Slot(dy, dx) < 8 && Offsets(c)[Slot(dy, dx)] == Coord(c.x + dx, c.y + dy)
    {
      SlotCell(c, dy, dx);
    }
  }

  /** One offset further along a row: the loop and the in-bounds prefix grow alike. */
  lemma UptoStep(a: seq<Coord>, c: Coord, w: int, h: int, dy: int, dx: int)
    requires Slotted(a, c) && -1 <= dy <= 1 && -1 < dx <= 2 && 0 <= Slot(dy, dx - 1) <= 8
    requires Upto(c, w, h, dy, dx - 1) == InBoundsPrefix(a, w, h, Slot(dy, dx - 1))
    ensures 0 <= Slot(dy, dx) <= 8 && Upto(c, w, h, dy, dx) == InBoundsPrefix(a, w, h, Slot(dy, dx))
  {
    var k, k1 := Slot(dy, dx - 1), Slot(dy, dx);
    assert Upto(c, w, h, dy, dx) == Upto(c, w, h, dy, dx - 1) + Step(c, w, h, dy, dx - 1);
    if !(dx - 1 == 0 && dy == 0) {
      var m := Coord(c.x + (dx - 1), c.y + dy);
      assert a[k] == m && k1 == k + 1;
      assert InBoundsPrefix(a, w, h, k1) == InBoundsPrefix(a, w, h, k) + if InBounds(w, h, m) then [m] else [];
    } else {
      assert k1 == k && Step(c, w, h, dy, dx - 1) == [];
      assert Upto(c, w, h, dy, dx) == Upto(c, w, h, dy, dx - 1) + [];
    }
  }

  /** The loop so far is the in-bounds part of the offsets so far. */
  lemma {:induction false} UptoPrefix(a: seq<Coord>, c: Coord, w: int, h: int, dy: int, dx: int)
    requires Slotted(a, c) && -1 <= dy <= 2 && -1 <= dx <= 2 && (dy == 2 ==> dx == -1)
    ensures 0 <= Slot(dy, dx) <= 8 && Upto(c, w, h, dy, dx) == InBoundsPrefix(a, w, h, Slot(dy, dx))
    decreases dy + 1, dx + 1
  {
    if dx > -1 {
      UptoPrefix(a, c, w, h, dy, dx - 1);
      UptoStep(a, c, w, h, dy, dx);
    } else if dy > -1 {
      UptoPrefix(a, c, w, h, dy - 1, 2);
      assert Slot(dy, dx) == Slot(dy - 1, 2);
    }
  }

  /** The whole loop collects exactly the in-bounds neighbours, in the order of `Neighbours`. */
  lemma UptoAll(c: Coord, w: int, h: int)
    ensures Upto(c, w, h, 2, -1) == Neighbours(w, h, c)
  {
    OffsetsSlotted(c);
    UptoPrefix(Offsets(c), c, w, h, 2, -1);
    InBoundsPrefixFilter(Offsets(c), w, h, 8);
    assert Offsets(c)[..8] == Around(c);
  }

  /** A row-major scan that finds nothing at (`x`, `y`) has found nothing up to the next cell. */
  lemma ScanPast(p: Coord -> bool, w: int, h: int, x: int, y: int)
    requires forall d | InBounds(w, h, d) && Earlier(d, Coord(x, y)) :: !p(d)
    requires !p(Coord(x, y))
    ensures forall d | InBounds(w, h, d) && Earlier(d, Coord(x + 1, y)) :: !p(d)
  {
  }

  /** One more cell of a row-major scan: the entries list grows by that cell's entry when it is a candidate. */
  lemma EntriesNext(s: Snapshot, w: int, h: int, x: int, y: int)
    requires 0 <= y && 0 <= x < w
    ensures var c := Coord(x, y);
      Entries(s, w, h, Before(w, y, x + 1)) ==
        Entries(s, w, h, Before(w, y, x)) + if Candidate(s, w, h, c) then [EntryOf(s, w, h, c)] else []
  {
    var cs := Before(w, y, x + 1);
    assert cs[..|cs| - 1] == Before(w, y, x);
  }

  /** One more cell of the outer scan of the pairwise pass. */
  lemma OuterNext(s: Snapshot, w: int, h: int, x: int, y: int, acc: Found)
    requires 0 <= y && 0 <= x < w && 0 <= h
    ensures var c := Coord(x, y); var prev := Outer(s, w, h, Before(w, y, x), acc);
      Outer(s, w, h, Before(w, y, x + 1), acc) ==
        if Source(s, w, h, c) then Inner(s, w, h, c, AllCoords(w, h), prev) else prev
  {
    var cs := Before(w, y, x + 1);
    assert cs[..|cs| - 1] == Before(w, y, x);
  }

  /** One more cell of the inner scan of the pairwise pass. */
  lemma InnerNext(s: Snapshot, w: int, h: int, c1: Coord, x: int, y: int, acc: Found)
    requires 0 <= y && 0 <= x < w
    ensures var c2 := Coord(x, y); var prev := Inner(s, w, h, c1, Before(w, y, x), acc);
      Inner(s, w, h, c1, Before(w, y, x + 1), acc) ==
        if c2 != c1 && Source(s, w, h, c2) then PairStep(s, w, h, c1, c2, prev) else prev
  {
    var cs := Before(w, y, x + 1);
    assert cs[..|cs| - 1] == Before(w, y, x);
  }

  /** One more cell offered to a push loop of rules 1 and 2. */
  lemma PushFreshNext(s: Snapshot, cells: seq<Coord>, i: int, out: seq<Coord>, processed: set<Coord>)
    requires 0 <= i < |cells|
    ensures var prev := PushFresh(s, cells[..i], out, processed); var c := cells[i];
      PushFresh(s, cells[..i + 1], out, processed) ==
        if c !in prev.1 && !Look(s, c).isFlagged && !Look(s, c).isRevealed then (prev.0 + [c], prev.1 + {c}) else prev
  {
    assert cells[..i + 1][..i] == cells[..i];
  }

  /** A candidate is informed exactly when the filter of ai.js:460-461 keeps one of its neighbours. */
  lemma InformedByFilter(s: Snapshot, w: int, h: int, c: Coord)
    ensures Informed(s, w, h, c) <==>
      |Filter(Neighbours(w, h, c), n => Look(s, n).isRevealed && !Look(s, n).isMine && Look(s, n).adjacentMines > 0)| > 0
  {
    var informing := Filter(Neighbours(w, h, c), n => Look(s, n).isRevealed && !Look(s, n).isMine && Look(s, n).adjacentMines > 0);
    if |informing| > 0 {
      assert informing[0] in informing;
    }
    if Informed(s, w, h, c) {
      var n :| n in Neighbours(w, h, c) && Look(s, n).isRevealed && !Look(s, n).isMine && Look(s, n).adjacentMines > 0;
      assert n in informing;
    }
  }

  /**
   * The share of one informing number in the guess (ai.js:476):
   * `revealedCellUnflaggedHidden` already holds a count, so its `length` is
   * undefined, the test `undefined > 0` fails and the share is 0, whatever
   * `minesLeft` and the count are.
   */
  function Share(minesLeft: nat, count: nat): real {
    0.0
  }

  /** One more element of a list under a filter loop. */
  lemma FilterNext<T(!new)>(s: seq<T>, i: int, p: T -> bool)
    requires 0 <= i < |s|
    ensures Filter(s[..i + 1], p) == Filter(s[..i], p) + if p(s[i]) then [s[i]] else []
  {
    assert s[..i + 1] == s[..i] + [s[i]];
    FilterAppend(s[..i], s[i], p);
  }

  /** ai.js:233-237: the Fisher-Yates shuffle; `Math.random` becomes an arbitrary pick of `j` in `0..i`. */
  method Shuffle(a: array<Coord>)
    modifies a
    ensures multiset(a[..]) == multiset(old(a[..]))
  {
    var i := a.Length - 1;
    while i > 0
      invariant multiset(a[..]) == multiset(old(a[..]))
    {
      var j :| 0 <= j <= i;
      a[i], a[j] := a[j], a[i];
      i := i - 1;
    }
  }

  /** The mined positions of a snapshot, row by row (the capture loop of main.js:306-314). */
  function MinePositions(s: Snapshot, w: int, h: int): seq<Coord>
    requires 0 <= w && 0 <= h
  {
    Filter(AllCoords(w, h), c => Look(s, c).isMine)
  }

  /**
   * The capture of a board lists exactly its mines, each once, in row-major
   * order.
   */
  lemma MinePositionsOf(g: Grid, w: int, h: int)
    requires Shaped(g, w, h) && 0 <= h
    ensures var m := MinePositions(SnapshotOf(g, w, h), w, h);
      (forall c :: c in m <==> c in MineSet(g, w, h)) && Distinct(m) && SortedRowMajor(m)
  {
    var s := SnapshotOf(g, w, h);
    AllCoordsShape(w, h);
    AllCoordsCount(w, h);
    FilterSorted(AllCoords(w, h), c => Look(s, c).isMine);
  }

  /** One more position of the row-major scan under a filter. */
  lemma BeforeNext(w: int, y: int, x: int, p: Coord -> bool)
    requires 0 <= y && 0 <= x < w
    ensures Filter(Before(w, y, x + 1), p) == Filter(Before(w, y, x), p) + if p(Coord(x, y)) then [Coord(x, y)] else []
  {
    FilterAppend(Before(w, y, x), Coord(x, y), p);
  }

  class MinesweeperAI {
    const game: Game
    var isRunning: bool
    var stepByStepMode: bool
    /** Whether the `scanInterval` handle is set. */
    var scanning: bool
    /** The last move and its reason, in place of the `lastMoveReason` text. */
    var lastMove: Move
    var wasRunningWhenFailed: bool
    var failedPositions: seq<Coord>
    var lastFailedPosition: Option<Coord>

    /**
     * The failure memory never holds a cell twice (ai.js:572-581) and holds the
     * last failure; an interval is only ever set for a continuous run
     * (ai.js:22-28), so a solver at rest holds none that `startSolving` could leak.
     */
    ghost predicate Valid()
      reads this
    {
      Distinct(failedPositions) &&
      (lastFailedPosition.Some? ==> lastFailedPosition.value in failedPositions) &&
      (scanning ==> isRunning && !stepByStepMode)
    }

    /** ai.js:51-53 */
    predicate ShouldContinue()
      reads this, game
    {
      isRunning && !game.isGameOver && !game.isGameWon
    }

    /** The solver at rest: not running, not in step mode, no interval. */
    predicate Stopped()
      reads this
    {
      !isRunning && !stepByStepMode && !scanning
    }

    /** ai.js:6-16 */
    constructor (g: Game)
      ensures game == g && Valid()
      ensures !isRunning && !stepByStepMode && !scanning && lastMove == NoMove
      ensures !wasRunningWhenFailed && failedPositions == [] && lastFailedPosition == None
    {
      game := g;
      isRunning, stepByStepMode, scanning := false, false, false;
      lastMove := NoMove;
      wasRunningWhenFailed := false;
      failedPositions, lastFailedPosition := [], None;
    }

    // ----- scans over a snapshot (read-only) -----

    /** ai.js:538-555: the on-board neighbours of (`x`, `y`), row by row. */
    method GetAdjacentCells(x: int, y: int, s: Snapshot) returns (adjacent: seq<Coord>)
      ensures adjacent == Neighbours(game.width, game.height, Coord(x, y))
    {
      var w, h := game.width, game.height;
      ghost var c := Coord(x, y);
      adjacent := [];
      for dy := -1 to 2
        invariant adjacent == Upto(c, w, h, dy, -1)
      {
        for dx := -1 to 2
          invariant adjacent == Upto(c, w, h, dy, dx)
        {
          assert Upto(c, w, h, dy, dx + 1) == adjacent + Step(c, w, h, dy, dx);
          if dx == 0 && dy == 0 {
            continue;
          }
          var nx, ny := x + dx, y + dy;
          if nx >= 0 && nx < w && ny >= 0 && ny < h {
            adjacent := adjacent + [Coord(nx, ny)];
          }
        }
      }
      UptoAll(c, w, h);
    }

    /** ai.js:514-535: whether the 3x3 centred on (`x`, `y`) is on the board and wholly unrevealed. */
    method IsCenterOfUnrevealedNineGrid(x: int, y: int, s: Snapshot) returns (centre: bool)
      ensures centre == IsCentre(s, game.width, game.height, Coord(x, y))
    {
      var w, h := game.width, game.height;
      var c := Coord(x, y);
      var dy := -1;
      while dy <= 1
        invariant -1 <= dy <= 2
        invariant forall n | Near(n, c) && n.y < y + dy :: InBounds(w, h, n) && !Look(s, n).isRevealed
      {
        var dx := -1;
        while dx <= 1
          invariant -1 <= dx <= 2
          invariant forall n | Near(n, c) && (n.y < y + dy || (n.y == y + dy && n.x < x + dx)) ::
            InBounds(w, h, n) && !Look(s, n).isRevealed
        {
          var nx, ny := x + dx, y + dy;
          if nx < 0 || nx >= w || ny < 0 || ny >= h {
            assert Near(Coord(nx, ny), c);
            return false;
          }
          if Look(s, Coord(nx, ny)).isRevealed {
            assert Near(Coord(nx, ny), c);
            return false;
          }
          dx := dx + 1;
        }
        dy := dy + 1;
      }
      return true;
    }

    // ----- the first move -----

    /** ai.js:138-151: whether a cell of the 3x3 around the middle is on the board and revealed. */
    method HasRevealedInCenter(s: Snapshot) returns (found: bool)
      requires 0 <= game.width && 0 <= game.height
      ensures found == RevealedNearMid(s, game.width, game.height)
    {
      var w, h := game.width, game.height;
      var mid := Mid(w, h);
      for dy := -1 to 2
        invariant forall n | Near(n, mid) && n.y < mid.y + dy :: !(InBounds(w, h, n) && Look(s, n).isRevealed)
      {
        for dx := -1 to 2
          invariant forall n | Near(n, mid) && (n.y < mid.y + dy || (n.y == mid.y + dy && n.x < mid.x + dx)) ::
            !(InBounds(w, h, n) && Look(s, n).isRevealed)
        {
          var x, y := mid.x + dx, mid.y + dy;
          if x >= 0 && x < w && y >= 0 && y < h {
            if Look(s, Coord(x, y)).isRevealed {
              assert Near(Coord(x, y), mid);
              return true;
            }
          }
        }
      }
      return false;
    }

    /** ai.js:169-178: the on-board cells of the 5x5 block around the middle, row by row. */
    method CenterArea() returns (area: seq<Coord>)
      requires 0 <= game.width && 0 <= game.height
      ensures area == CentreArea(game.width, game.height)
    {
      var w, h := game.width, game.height;
      var mid := Mid(w, h);
      area := [];
      for dy := -2 to 3
        invariant area == AreaUpto(mid, w, h, dy, -2)
      {
        for dx := -2 to 3
          invariant area == AreaUpto(mid, w, h, dy, dx)
        {
          var x, y := mid.x + dx, mid.y + dy;
          if x >= 0 && x < w && y >= 0 && y < h {
            AreaUptoIn(mid, w, h, dy, dx + 1);
            area := area + [Coord(x, y)];
          } else {
            AreaUptoOut(mid, w, h, dy, dx + 1);
          }
        }
        AreaUptoRow(mid, w, h, dy);
      }
    }

    /** ai.js:181-191: the top and bottom cell of each column, then the left and right cell of each inner row. */
    method EdgePositions() returns (edges: seq<Coord>)
      requires 0 <= game.width && 0 <= game.height
      ensures edges == TopBottom(game.width, game.height) + LeftRight(game.width, game.height)
    {
      var w, h := game.width, game.height;
      edges := [];
      for x := 0 to w
        invariant edges == TopBottom(w, h)[..2 * x]
      {
        edges := edges + [Coord(x, 0)];
        edges := edges + [Coord(x, h - 1)];
        assert TopBottom(w, h)[..2 * (x + 1)] == TopBottom(w, h)[..2 * x] + [Coord(x, 0), Coord(x, h - 1)];
      }
      var y := 1;
      while y < h - 1
        invariant 1 <= y && (h > 2 ==> y <= h - 1) && (h <= 2 ==> y == 1)
        invariant edges == TopBottom(w, h) + LeftRight(w, h)[..2 * (y - 1)]
      {
        edges := edges + [Coord(0, y)];
        edges := edges + [Coord(w - 1, y)];
        assert LeftRight(w, h)[..2 * y] == LeftRight(w, h)[..2 * (y - 1)] + [Coord(0, y), Coord(w - 1, y)];
        y := y + 1;
      }
      assert LeftRight(w, h)[..2 * (y - 1)] == LeftRight(w, h);
    }

    /** ai.js:197-210: the positions of `all` on the board, not recorded as failures and not unrevealed-3x3 centres. */
    method KeepEligible(all: seq<Coord>, s: Snapshot) returns (kept: seq<Coord>)
      ensures var w, h, failed := game.width, game.height, failedPositions;
        kept == Filter(all, p => Eligible(s, w, h, failed, p))
    {
      var w, h := game.width, game.height;
      ghost var failed := failedPositions;
      ghost var eligible := p => Eligible(s, w, h, failed, p);
      kept := [];
      for i := 0 to |all|
        invariant kept == Filter(all[..i], eligible)
      {
        FilterNext(all, i, eligible);
        var pos := all[i];
        var isFailedPos := pos in failedPositions;
        var isCenterOfUnrevealed := IsCenterOfUnrevealedNineGrid(pos.x, pos.y, s);
        assert Coord(pos.x, pos.y) == pos;
        var isValidPos := pos.x >= 0 && pos.x < w && pos.y >= 0 && pos.y < h;
        if isValidPos && !isFailedPos && !isCenterOfUnrevealed {
          kept := kept + [pos];
        }
      }
      assert all[..|all|] == all;
    }

    /** ai.js:157-211: with a failure on record, the eligible corners, centre cells and edge cells. */
    method PoolPositions(s: Snapshot) returns (pool: seq<Coord>)
      requires 0 <= game.width && 0 <= game.height
      ensures pool == Pool(s, game.width, game.height, failedPositions)
    {
      var w, h := game.width, game.height;
      pool := [];
      if |failedPositions| > 0 {
        var corners := [Coord(0, 0), Coord(w - 1, 0), Coord(0, h - 1), Coord(w - 1, h - 1)];
        var centerArea := CenterArea();
        var edgePositions := EdgePositions();
        var allPositions := corners + centerArea + edgePositions;
        assert corners == Corners(w, h);
        assert allPositions == Corners(w, h) + CentreArea(w, h) + TopBottom(w, h) + LeftRight(w, h);
        pool := KeepEligible(allPositions, s);
      }
    }

    /** ai.js:153-231: the starting positions before the shuffle. */
    method StarterPositions(s: Snapshot) returns (possible: seq<Coord>)
      requires 0 <= game.width && 0 <= game.height
      ensures possible == Starters(s, game.width, game.height, failedPositions)
    {
      var w, h := game.width, game.height;
      var mid := Mid(w, h);
      var hasRevealedInCenter := HasRevealedInCenter(s);
      possible := PoolPositions(s);
      if |possible| == 0 {
        if !hasRevealedInCenter {
          possible := Ring(mid);
        } else {
          possible := [mid];
        }
      }
    }

    /** ai.js:355-368 */
    method GetConstraintForCell(x: int, y: int, s: Snapshot) returns (k: Constraint)
      ensures k == ConstraintOf(s, game.width, game.height, Coord(x, y))
    {
      var adjacent := GetAdjacentCells(x, y, s);
      var hidden := Filter(adjacent, n => !Look(s, n).isRevealed);
      var flagged := |Filter(hidden, n => Look(s, n).isFlagged)|;
      var adj := Look(s, Coord(x, y)).adjacentMines;
      k := Constraint(Coord(x, y), hidden, flagged, if adj - flagged > 0 then adj - flagged else 0);
    }

    /** ai.js:402-406: the first of `cells` that is not the centre of an unrevealed 3x3. */
    method FirstOpen(cells: seq<Coord>, s: Snapshot) returns (r: Option<Coord>)
      ensures var w, h := game.width, game.height; r == FirstWhere(cells, n => !IsCentre(s, w, h, n))
    {
      var w, h := game.width, game.height;
      ghost var open := n => !IsCentre(s, w, h, n);
      for i := 0 to |cells|
        invariant forall j | 0 <= j < i :: !open(cells[j])
      {
        var n := cells[i];
        var centre := IsCenterOfUnrevealedNineGrid(n.x, n.y, s);
        assert open(n) == !centre;
        if !centre {
          FirstWhereAt(cells, open, i);
          return Some(n);
        }
      }
      return None;
    }

    /** The body of the scan of ai.js:386-407 at the cell (`x`, `y`): what `findSafeMove` takes from that cell. */
    method SafeFromCell(x: int, y: int, s: Snapshot) returns (r: Option<Coord>)
      requires 0 <= x < game.width && 0 <= y < game.height
      ensures r == SafeFrom(s, game.width, game.height, Coord(x, y))
    {
      var w, h := game.width, game.height;
      var c := Coord(x, y);
      var cell := Look(s, c);
      if !cell.isRevealed || cell.isMine || cell.adjacentMines == 0 {
        return None;
      }
      var adjacent := GetAdjacentCells(x, y, s);
      var hidden := Filter(adjacent, n => !Look(s, n).isRevealed);
      var flagged := |Filter(hidden, n => Look(s, n).isFlagged)|;
      var unflagged := Filter(hidden, n => !Look(s, n).isFlagged);
      assert hidden == HiddenOf(s, w, h, c);
      assert flagged == |FlaggedOf(s, hidden)| && unflagged == UnflaggedOf(s, hidden);
      if flagged == cell.adjacentMines && |unflagged| > 0 {
        r := FirstOpen(unflagged, s);
      } else {
        r := None;
      }
    }

    /**
     * ai.js:383-411: the first number in row-major order whose flags match it
     * and which has an unflagged hidden neighbour that is no unrevealed-3x3
     * centre, and the first such neighbour; `None` when there is none.
     */
    method FindSafeMove(s: Snapshot) returns (r: Option<Coord>)
      requires 0 <= game.width && 0 <= game.height
      ensures r == SafeMove(s, game.width, game.height)
    {
      var w, h := game.width, game.height;
      ghost var offers := d => SafeFrom(s, w, h, d).Some?;
      for y := 0 to h
        invariant forall d | InBounds(w, h, d) && d.y < y :: !offers(d)
      {
        for x := 0 to w
          invariant forall d | InBounds(w, h, d) && Earlier(d, Coord(x, y)) :: !offers(d)
        {
          r := SafeFromCell(x, y, s);
          if r.Some? {
            SafeMoveAt(s, w, h, Coord(x, y));
            return;
          }
          ScanPast(offers, w, h, x, y);
        }
      }
      SafeMoveSound(s, w, h);
      return None;
    }

    /** The body of the scan of ai.js:417-433 at the cell (`x`, `y`): what `findMineToFlag` takes from that cell. */
    method MineFromCell(x: int, y: int, s: Snapshot) returns (r: Option<Coord>)
      requires 0 <= x < game.width && 0 <= y < game.height
      ensures r == MineFrom(s, game.width, game.height, Coord(x, y))
    {
      var w, h := game.width, game.height;
      var cell := Look(s, Coord(x, y));
      if !cell.isRevealed || cell.isMine || cell.adjacentMines == 0 {
        return None;
      }
      var adjacent := GetAdjacentCells(x, y, s);
      var hidden := Filter(adjacent, n => !Look(s, n).isRevealed);
      var unflagged := Filter(hidden, n => !Look(s, n).isFlagged);
      var flagged := |Filter(hidden, n => Look(s, n).isFlagged)|;
      assert hidden == HiddenOf(s, w, h, Coord(x, y));
      if |unflagged| == cell.adjacentMines - flagged && |unflagged| > 0 {
        return Some(unflagged[0]);
      }
      return None;
    }

    /**
     * ai.js:460-483: the probability of a candidate whose informing neighbours
     * are `informing`. Every share the loop adds is zero (`Share`), so the sum
     * stays 0.0 and the result is `Probability(true)`; the loop is kept only so
     * that the method follows the source's steps.
     */
    method InformedProbability(informing: seq<Coord>, s: Snapshot) returns (p: real)
      requires |informing| > 0
      ensures p == Probability(true)
    {
      var total := 0.0;
      for i := 0 to |informing|
        invariant total == 0.0
      {
        var n := informing[i];
        var k := GetConstraintForCell(n.x, n.y, s);
        var unflaggedCount := |k.hidden| - k.flagged;
        total := total + Share(k.minesLeft, if unflaggedCount > 0 then unflaggedCount else 0);
      }
      p := total / |informing| as real;
    }

    /** ai.js:454-496: the entry of the candidate (`x`, `y`). */
    method EntryAt(x: int, y: int, s: Snapshot) returns (e: Entry)
      ensures e == EntryOf(s, game.width, game.height, Coord(x, y))
    {
      var w, h := game.width, game.height;
      var c := Coord(x, y);
      var probability := 0.15;
      var hasInfo := false;
      var adjacent := GetAdjacentCells(x, y, s);
      var informing := Filter(adjacent, n => Look(s, n).isRevealed && !Look(s, n).isMine && Look(s, n).adjacentMines > 0);
      InformedByFilter(s, w, h, c);
      if |informing| > 0 {
        hasInfo := true;
        probability := InformedProbability(informing, s);
      }
      var centre := IsCenterOfUnrevealedNineGrid(x, y, s);
      e := Entry(c, probability, hasInfo, centre);
    }

    /**
     * ai.js:440-511: the entries of all candidates in row-major order, then
     * the one the comparator sorts first; `None` when there is no candidate.
     */
    method EnhancedProbabilityAnalysis(s: Snapshot) returns (best: Option<Entry>)
      requires 0 <= game.width && 0 <= game.height
      ensures best == BestGuess(s, game.width, game.height)
    {
      var w, h := game.width, game.height;
      var probabilities: seq<Entry> := [];
      for y := 0 to h
        invariant probabilities == Entries(s, w, h, Before(w, y, 0))
      {
        for x := 0 to w
          invariant probabilities == Entries(s, w, h, Before(w, y, x))
        {
          EntriesNext(s, w, h, x, y);
          var cell := Look(s, Coord(x, y));
          if cell.isRevealed || cell.isFlagged {
            continue;
          }
          var e := EntryAt(x, y, s);
          probabilities := probabilities + [e];
        }
      }
      match FirstLeast(probabilities)
      case None =>
        best := None;
      case Some(i) =>
        best := Some(probabilities[i]);
    }

    /**
     * One push loop of rules 1 and 2 (ai.js:300-306, 313-319): append each
     * cell of `cells` not yet processed, not flagged and not revealed, and
     * mark it processed.
     */
    method PushNew(cells: seq<Coord>, s: Snapshot, out0: seq<Coord>, processed0: set<Coord>)
      returns (out: seq<Coord>, processed: set<Coord>)
      ensures (out, processed) == PushFresh(s, cells, out0, processed0)
    {
      out, processed := out0, processed0;
      for i := 0 to |cells|
        invariant (out, processed) == PushFresh(s, cells[..i], out0, processed0)
      {
        PushFreshNext(s, cells, i, out0, processed0);
        var c := cells[i];
        if c !in processed && !Look(s, c).isFlagged && !Look(s, c).isRevealed {
          out := out + [c];
          processed := processed + {c};
        }
      }
      assert cells[..|cells|] == cells;
    }

    /** ai.js:289-345: rules 1, 2 and 3 for the constraints `k1` and `k2` of two distinct numbers. */
    method ReasonPair(k1: Constraint, k2: Constraint, s: Snapshot, acc: Found) returns (r: Found)
      requires k1 == ConstraintOf(s, game.width, game.height, k1.at)
      requires k2 == ConstraintOf(s, game.width, game.height, k2.at)
      ensures r == PairStep(s, game.width, game.height, k1.at, k2.at, acc)
    {
      var safeMoves, mineMoves, processed := acc.safe, acc.mines, acc.processed;
      var overlapping := Shared(k1.hidden, k2.hidden);
      if |overlapping| == 0 {
        return acc;
      }
      var diffMines := k1.minesLeft - k2.minesLeft;
      var onlyA := Only(k1.hidden, k2.hidden);
      var onlyC := Only(k2.hidden, k1.hidden);
      if |onlyA| == 0 && diffMines == 0 {
        safeMoves, processed := PushNew(onlyC, s, safeMoves, processed);
      }
      if |onlyA| == 0 && diffMines > 0 {
        if |onlyC| == diffMines {
          mineMoves, processed := PushNew(onlyC, s, mineMoves, processed);
        }
      }
      if |onlyA| > 0 && |onlyC| > 0 {
        var combinedMines := k1.minesLeft + k2.minesLeft;
        var uniqueMines := combinedMines - |overlapping|;
        if |onlyA| + |onlyC| + |overlapping| <= 3 && uniqueMines >= 0 && uniqueMines <= |onlyA| + |onlyC| {
          if |onlyA| == 1 && |onlyC| == 1 && diffMines == 1 {
            mineMoves := mineMoves + [onlyA[0]];
            safeMoves := safeMoves + [onlyC[0]];
          } else if |onlyA| == 1 && |onlyC| == 1 && diffMines == -1 {
            safeMoves := safeMoves + [onlyA[0]];
            mineMoves := mineMoves + [onlyC[0]];
          }
        }
      }
      r := Found(safeMoves, mineMoves, processed);
    }

    /** The body of the inner scan of ai.js:277-346 at the cell (`x2`, `y2`). */
    method ReasonWith(k1: Constraint, x2: int, y2: int, s: Snapshot, acc: Found) returns (r: Found)
      requires k1 == ConstraintOf(s, game.width, game.height, k1.at)
      requires 0 <= x2 < game.width && 0 <= y2 < game.height
      ensures var c2 := Coord(x2, y2);
        r == if c2 != k1.at && Source(s, game.width, game.height, c2) then PairStep(s, game.width, game.height, k1.at, c2, acc) else acc
    {
      ghost var w, h, c2 := game.width, game.height, Coord(x2, y2);
      if k1.at.x == x2 && k1.at.y == y2 {
        assert c2 == k1.at;
        return acc;
      }
      var cell2 := Look(s, Coord(x2, y2));
      if !cell2.isRevealed || cell2.isMine || cell2.adjacentMines == 0 {
        assert !Numbered(s, c2);
        return acc;
      }
      var k2 := GetConstraintForCell(x2, y2, s);
      if |k2.hidden| == 0 {
        assert |HiddenOf(s, w, h, c2)| == 0;
        return acc;
      }
      assert c2 != k1.at && Source(s, w, h, c2) && k2.at == c2;
      r := ReasonPair(k1, k2, s, acc);
    }

    /** ai.js:276-347: the number (`x`, `y`) with constraint `k1` against every other number in row-major order. */
    method CompareWithOthers(x: int, y: int, k1: Constraint, s: Snapshot, acc: Found) returns (r: Found)
      requires 0 <= game.width && 0 <= game.height && k1.at == Coord(x, y) && k1 == ConstraintOf(s, game.width, game.height, k1.at)
      ensures r == Inner(s, game.width, game.height, Coord(x, y), AllCoords(game.width, game.height), acc)
    {
      var w, h := game.width, game.height;
      r := acc;
      for y2 := 0 to h
        invariant r == Inner(s, w, h, Coord(x, y), Before(w, y2, 0), acc)
      {
        for x2 := 0 to w
          invariant r == Inner(s, w, h, Coord(x, y), Before(w, y2, x2), acc)
        {
          InnerNext(s, w, h, Coord(x, y), x2, y2, acc);
          r := ReasonWith(k1, x2, y2, s, r);
        }
      }
    }

    /** The body of the outer scan of ai.js:263-348 at the cell (`x`, `y`). */
    method ReasonFrom(x: int, y: int, s: Snapshot, acc: Found) returns (r: Found)
      requires 0 <= x < game.width && 0 <= y < game.height
      ensures var c := Coord(x, y);
        r == if Source(s, game.width, game.height, c) then Inner(s, game.width, game.height, c, AllCoords(game.width, game.height), acc) else acc
    {
      ghost var w, h, c := game.width, game.height, Coord(x, y);
      var cell := Look(s, Coord(x, y));
      if !cell.isRevealed || cell.isMine || cell.adjacentMines == 0 {
        assert !Numbered(s, c);
        return acc;
      }
      var k1 := GetConstraintForCell(x, y, s);
      if |k1.hidden| == 0 {
        assert |HiddenOf(s, w, h, c)| == 0;
        return acc;
      }
      r := CompareWithOthers(x, y, k1, s, acc);
    }

    /**
     * ai.js:256-352: every number with a hidden neighbour, in row-major order,
     * against every other one; the safe cells and the mines found, in the
     * order they were found.
     */
    method AdvancedLogicalReasoning(s: Snapshot) returns (safeMoves: seq<Coord>, mineMoves: seq<Coord>)
      requires 0 <= game.width && 0 <= game.height
      ensures safeMoves == Reasoning(s, game.width, game.height).safe
      ensures mineMoves == Reasoning(s, game.width, game.height).mines
    {
      var w, h := game.width, game.height;
      var acc := Found([], [], {});
      for y := 0 to h
        invariant acc == Outer(s, w, h, Before(w, y, 0), Found([], [], {}))
      {
        for x := 0 to w
          invariant acc == Outer(s, w, h, Before(w, y, x), Found([], [], {}))
        {
          OuterNext(s, w, h, x, y, Found([], [], {}));
          acc := ReasonFrom(x, y, s, acc);
        }
      }
      safeMoves, mineMoves := acc.safe, acc.mines;
    }

    /**
     * ai.js:414-437: the first number in row-major order whose unflagged
     * hidden neighbours are exactly as many as its number less its flags, and
     * at least one, and the first of them; `None` when there is none.
     */
    method FindMineToFlag(s: Snapshot) returns (r: Option<Coord>)
      requires 0 <= game.width && 0 <= game.height
      ensures r == MineToFlag(s, game.width, game.height)
    {
      var w, h := game.width, game.height;
      ghost var offers := d => MineFrom(s, w, h, d).Some?;
      for y := 0 to h
        invariant forall d | InBounds(w, h, d) && d.y < y :: !offers(d)
      {
        for x := 0 to w
          invariant forall d | InBounds(w, h, d) && Earlier(d, Coord(x, y)) :: !offers(d)
        {
          r := MineFromCell(x, y, s);
          if r.Some? {
            MineToFlagAt(s, w, h, Coord(x, y));
            return;
          }
          ScanPast(offers, w, h, x, y);
        }
      }
      MineToFlagSound(s, w, h);
      return None;
    }

    // ----- run state and failure memory (ai.js:19-48, 558-589) -----

    /** ai.js:41-48 */
    method StopSolving()
      requires Valid()
      modifies this`isRunning, this`stepByStepMode, this`scanning
      ensures Valid() && Stopped()
    {
      isRunning := false;
      stepByStepMode := false;
      if scanning {
        scanning := false;
      }
    }

    /**
     * ai.js:19-29: a solver at rest starts a continuous run and sets the
     * interval; a running one is left as it is.
     */
    method StartSolving()
      requires Valid()
      modifies this`isRunning, this`stepByStepMode, this`scanning
      ensures Valid()
      ensures old(isRunning) ==> isRunning == old(isRunning) && stepByStepMode == old(stepByStepMode) && scanning == old(scanning)
      ensures !old(isRunning) ==> isRunning && !stepByStepMode && scanning && !old(scanning)
    {
      if isRunning {
        return;
      }
      isRunning := true;
      stepByStepMode := false;
      scanning := true;
    }

    /** ai.js:558-565: stop, forget the failed-run mark, keep the failure memory. */
    method Reset()
      requires Valid()
      modifies this`isRunning, this`stepByStepMode, this`scanning, this`lastMove, this`wasRunningWhenFailed
      ensures Valid() && Stopped() && lastMove == NoMove && !wasRunningWhenFailed
      ensures failedPositions == old(failedPositions) && lastFailedPosition == old(lastFailedPosition)
    {
      StopSolving();
      lastMove := NoMove;
      wasRunningWhenFailed := false;
    }

    /**
     * ai.js:568-582: `c` becomes the last failure and joins the list unless it
     * is already there, so the list stays free of repeats.
     */
    method RecordFailurePosition(x: int, y: int)
      requires Valid()
      modifies this`failedPositions, this`lastFailedPosition
      ensures Valid() && lastFailedPosition == Some(Coord(x, y))
      ensures failedPositions == old(failedPositions) + if Coord(x, y) in old(failedPositions) then [] else [Coord(x, y)]
      ensures forall c :: c in failedPositions <==> c in old(failedPositions) || c == Coord(x, y)
    {
      lastFailedPosition := Some(Coord(x, y));
      var isAlreadyRecorded := Coord(x, y) in failedPositions;
      if !isAlreadyRecorded {
        failedPositions := failedPositions + [Coord(x, y)];
      }
    }

    /** ai.js:585-589 */
    method ClearFailureRecords()
      requires Valid()
      modifies this`failedPositions, this`lastFailedPosition
      ensures Valid() && failedPositions == [] && lastFailedPosition == None
    {
      failedPositions := [];
      lastFailedPosition := None;
    }

    // ----- the page's end-of-game handlers (main.js:290-327) -----

    /** main.js:306-314: the mined positions of the snapshot, row by row. */
    method CaptureMinePositions(s: Snapshot) returns (mines: seq<Coord>)
      requires SnapShaped(s, game.width, game.height)
      ensures mines == MinePositions(s, game.width, game.height)
    {
      var w, h := game.width, game.height;
      ghost var mined := c => Look(s, c).isMine;
      mines := [];
      for y := 0 to h
        invariant mines == Filter(Before(w, y, 0), mined)
      {
        for x := 0 to w
          invariant mines == Filter(Before(w, y, x), mined)
        {
          BeforeNext(w, y, x, mined);
          assert s[y][x] == Look(s, Coord(x, y));
          if s[y][x].isMine {
            mines := mines + [Coord(x, y)];
          }
        }
        assert Before(w, y + 1, 0) == Before(w, y, w);
      }
    }

    /**
     * `game.onGameOver` (main.js:290-327): a loss while running marks a failed
     * run; on a failed run the mine positions are saved on the game for a
     * replay, otherwise the saved list is cleared; then the solver stops.
     */
    method OnGameOver()
      requires Valid() && game.Valid()
      modifies this`isRunning, this`stepByStepMode, this`scanning, this`wasRunningWhenFailed, game`aifailedMinePositions
      ensures Valid() && Stopped() && game.Valid()
      ensures wasRunningWhenFailed == (old(isRunning) || old(wasRunningWhenFailed))
      ensures game.aifailedMinePositions ==
        if wasRunningWhenFailed then Some(MinePositions(SnapshotOf(game.board, game.width, game.height), game.width, game.height))
        else None
    {
      var wasAIRunning := isRunning;
      if wasAIRunning {
        wasRunningWhenFailed := true;
      }
      var isAIFailure := wasAIRunning || wasRunningWhenFailed;
      if isAIFailure {
        var boardState := game.GetGameState();
        SnapshotUnique(boardState, game.board, game.width, game.height);
        var minePositions := CaptureMinePositions(boardState);
        game.aifailedMinePositions := Some(minePositions);
      } else {
        game.aifailedMinePositions := None;
      }
      StopSolving();
    }

    /** `game.onGameWon` (main.js:329-332): the solver stops. */
    method OnGameWon()
      requires Valid()
      modifies this`isRunning, this`stepByStepMode, this`scanning
      ensures Valid() && Stopped()
    {
      StopSolving();
    }

    /** The won callbacks an engine call fired after the first `from` events, each handled in turn. */
    method WonCallbacks(from: nat)
      requires Valid() && from <= |game.events|
      requires forall i | from <= i < |game.events| :: game.events[i] == Won
      modifies this`isRunning, this`stepByStepMode, this`scanning
      ensures Valid()
      ensures from < |game.events| ==> Stopped()
      ensures from == |game.events| ==>
        isRunning == old(isRunning) && stepByStepMode == old(stepByStepMode) && scanning == old(scanning)
    {
      for i := from to |game.events|
        invariant Valid()
        invariant from < i ==> Stopped()
        invariant from == i ==>
          isRunning == old(isRunning) && stepByStepMode == old(stepByStepMode) && scanning == old(scanning)
      {
        OnGameWon();
      }
    }

    // ----- the engine calls the solver makes -----

    /**
     * The engine's `handleCellClick` on (`x`, `y`), summed up for the solver:
     * a click the engine ignores changes nothing, the first click never hits a
     * mine, a hit ends the game as lost, and otherwise only won callbacks fire.
     */
    method GameClick(x: int, y: int) returns (hitMine: bool)
      requires game.Valid() && InBounds(game.width, game.height, Coord(x, y))
      modifies game`board, game`isGameOver, game`isGameWon, game`isFirstClick, game`timer
      modifies game`flagsPlaced, game`revealedCount, game`events
      ensures game.Valid()
      ensures game.width == old(game.width) && game.height == old(game.height) && game.mineCount == old(game.mineCount)
      ensures !old(game.Playable(Coord(x, y))) ==> !hitMine && game.board == old(game.board)
      ensures old(game.Playable(Coord(x, y))) ==> At(game.board, Coord(x, y)).isRevealed
      ensures old(game.isFirstClick && game.Playable(Coord(x, y))) ==> !hitMine
      ensures |old(game.events)| <= |game.events|
      ensures |old(game.events)| < |game.events| <==> game.isGameOver && !old(game.isGameOver)
      ensures old(game.isGameOver) ==> game.isGameOver
      ensures hitMine ==> game.isGameOver && !game.isGameWon
      ensures !hitMine ==> forall i | |old(game.events)| <= i < |game.events| :: game.events[i] == Won
    {
      ghost var dealt;
      hitMine, dealt := game.HandleCellClick(x, y);
    }

    /**
     * `game.handleCellClick` on (`x`, `y`). A mine hit while this solver runs,
     * or after a failed run, is recorded (game.js:172-181) before the loss
     * callback; the callbacks the click fired are then handled.
     */
    method ClickCell(x: int, y: int) returns (hitMine: bool)
      requires game.Valid() && Valid() && InBounds(game.width, game.height, Coord(x, y))
      modifies this, game
      ensures game.Valid() && Valid()
      ensures game.width == old(game.width) && game.height == old(game.height) && game.mineCount == old(game.mineCount)
      ensures !old(game.Playable(Coord(x, y))) ==> !hitMine && game.board == old(game.board)
      ensures old(game.Playable(Coord(x, y))) ==> At(game.board, Coord(x, y)).isRevealed
      ensures old(game.isFirstClick && game.Playable(Coord(x, y))) ==> !hitMine
      ensures hitMine ==> game.isGameOver && !game.isGameWon && Stopped()
      ensures old(game.isGameOver) ==> game.isGameOver
      ensures game.isGameOver && !old(game.isGameOver) ==> Stopped()
      ensures game.isGameOver == old(game.isGameOver) ==>
        isRunning == old(isRunning) && stepByStepMode == old(stepByStepMode)
      ensures hitMine && old(isRunning || wasRunningWhenFailed) ==>
        lastFailedPosition == Some(Coord(x, y)) && Coord(x, y) in failedPositions
      ensures !(hitMine && old(isRunning || wasRunningWhenFailed)) ==>
        failedPositions == old(failedPositions) && lastFailedPosition == old(lastFailedPosition)
      ensures lastMove == old(lastMove)
    {
      var from := |game.events|;
      hitMine := GameClick(x, y);
      if hitMine {
        MineHit(x, y);
      } else {
        WonCallbacks(from);
      }
    }

    /** game.js:172-181 and the loss callback: the failure recorded when a run is or was going on, then `OnGameOver`. */
    method MineHit(x: int, y: int)
      requires Valid() && game.Valid()
      modifies this`failedPositions, this`lastFailedPosition, this`isRunning, this`stepByStepMode, this`scanning
      modifies this`wasRunningWhenFailed, game`aifailedMinePositions
      ensures Valid() && Stopped() && game.Valid()
      ensures old(isRunning || wasRunningWhenFailed) ==>
        lastFailedPosition == Some(Coord(x, y)) && Coord(x, y) in failedPositions
      ensures !old(isRunning || wasRunningWhenFailed) ==>
        failedPositions == old(failedPositions) && lastFailedPosition == old(lastFailedPosition)
    {
      if isRunning || wasRunningWhenFailed {
        RecordFailurePosition(x, y);
      }
      OnGameOver();
    }

    /** `game.handleCellRightClick` on (`x`, `y`), then the won callbacks it fired. */
    method FlagCell(x: int, y: int)
      requires game.Valid() && Valid() && InBounds(game.width, game.height, Coord(x, y))
      modifies this, game
      ensures game.Valid() && Valid()
      ensures game.width == old(game.width) && game.height == old(game.height) && game.mineCount == old(game.mineCount)
      ensures old(game.isGameOver || game.isGameWon || At(game.board, Coord(x, y)).isRevealed) ==> game.board == old(game.board)
      ensures !old(game.isGameOver || game.isGameWon || At(game.board, Coord(x, y)).isRevealed) && !game.isGameOver ==>
        game.board == Toggled(old(game.board), Coord(x, y))
      ensures old(game.isGameOver) ==> game.isGameOver
      ensures game.isGameOver && !old(game.isGameOver) ==> Stopped()
      ensures game.isGameOver == old(game.isGameOver) ==>
        isRunning == old(isRunning) && stepByStepMode == old(stepByStepMode)
      ensures failedPositions == old(failedPositions) && lastFailedPosition == old(lastFailedPosition)
      ensures lastMove == old(lastMove)
    {
      var from := |game.events|;
      game.HandleCellRightClick(x, y);
      WonCallbacks(from);
    }

    // ----- choosing the move -----

    /** ai.js:240-249: the first on-board position of the shuffled list, if any. */
    method PickStart(a: array<Coord>) returns (pick: Coord)
      requires 0 <= game.width && 0 <= game.height
      ensures pick == FirstPick(a[..], game.width, game.height)
    {
      var w, h := game.width, game.height;
      ghost var onBoard := q => InBounds(w, h, q);
      for i := 0 to a.Length
        invariant forall j | 0 <= j < i :: !onBoard(a[j])
      {
        var pos := a[i];
        if pos.x >= 0 && pos.x < w && pos.y >= 0 && pos.y < h {
          FirstWhereAt(a[..], onBoard, i);
          return pos;
        }
      }
      pick := Mid(w, h);
    }

    /**
     * ai.js:132-249: list the starting positions, shuffle them and take the
     * first one on the board, or the middle. The pick is on the board; with a
     * failure on record and a non-empty pool it avoids every recorded failure
     * and every 3x3 centre; otherwise it is the middle or next to it.
     */
    method ChooseStart(s: Snapshot) returns (pos: Coord)
      requires 0 < game.width && 0 < game.height
      ensures InBounds(game.width, game.height, pos)
      ensures |Pool(s, game.width, game.height, failedPositions)| > 0 ==>
        pos !in failedPositions && !IsCentre(s, game.width, game.height, pos)
      ensures |Pool(s, game.width, game.height, failedPositions)| == 0 ==>
        pos == Mid(game.width, game.height) ||
        (Adjacent(pos, Mid(game.width, game.height)) && !RevealedNearMid(s, game.width, game.height))
    {
      var list := StarterPositions(s);
      var a := new Coord[|list|](i requires 0 <= i < |list| => list[i]);
      assert a[..] == list;
      Shuffle(a);
      pos := PickStart(a);
      FirstMoveSound(s, game.width, game.height, failedPositions, a[..]);
    }

    /** ai.js:132-253: the first click of a game, on the position `ChooseStart` picks. */
    method MakeFirstMove(s: Snapshot)
      requires game.Valid() && Valid()
      modifies this, game
      ensures game.Valid() && Valid()
      ensures lastMove.FirstMove? && InBounds(game.width, game.height, lastMove.at)
      ensures old(game.isGameOver) ==> game.isGameOver
      ensures game.isGameOver && !old(game.isGameOver) ==> Stopped()
      ensures game.isGameOver == old(game.isGameOver) ==>
        isRunning == old(isRunning) && stepByStepMode == old(stepByStepMode)
      ensures |Pool(s, game.width, game.height, old(failedPositions))| > 0 ==>
        lastMove.at !in old(failedPositions) && !IsCentre(s, game.width, game.height, lastMove.at)
      ensures |Pool(s, game.width, game.height, old(failedPositions))| == 0 ==>
        lastMove.at == Mid(game.width, game.height) ||
        (Adjacent(lastMove.at, Mid(game.width, game.height)) && !RevealedNearMid(s, game.width, game.height))
    {
      var pos := ChooseStart(s);
      lastMove := FirstMove(pos);
      var _ := ClickCell(pos.x, pos.y);
    }

    /** ai.js:86-89: the deduced safe cells that are not the centre of an unrevealed 3x3. */
    method KeepOpen(cells: seq<Coord>, s: Snapshot) returns (kept: seq<Coord>)
      ensures var w, h := game.width, game.height; kept == Filter(cells, n => !IsCentre(s, w, h, n))
    {
      var w, h := game.width, game.height;
      ghost var open := n => !IsCentre(s, w, h, n);
      kept := [];
      for i := 0 to |cells|
        invariant kept == Filter(cells[..i], open)
      {
        FilterNext(cells, i, open);
        var cell := cells[i];
        var centre := IsCenterOfUnrevealedNineGrid(cell.x, cell.y, s);
        assert Coord(cell.x, cell.y) == cell;
        if !centre {
          kept := kept + [cell];
        }
      }
      assert cells[..|cells|] == cells;
    }

    /**
     * ai.js:71-116: the move after the first, in priority order: a deduced
     * mine, a deduced safe cell that is not a 3x3 centre, the single-cell safe
     * rule, the single-cell mine rule, the best guess.
     */
    method ChooseMove(s: Snapshot) returns (m: Move)
      requires 0 <= game.width && 0 <= game.height
      ensures m == Decide(s, game.width, game.height)
    {
      var w, h := game.width, game.height;
      var safeMoves, mineMoves := AdvancedLogicalReasoning(s);
      if |mineMoves| > 0 {
        return DeducedFlag(mineMoves[0]);
      }
      FilterFirst(safeMoves, n => !IsCentre(s, w, h, n));
      if |safeMoves| > 0 {
        var validSafeMoves := KeepOpen(safeMoves, s);
        if |validSafeMoves| > 0 {
          return DeducedReveal(validSafeMoves[0]);
        }
      }
      var safeMove := FindSafeMove(s);
      if safeMove.Some? {
        return SafeReveal(safeMove.value);
      }
      var mineToFlag := FindMineToFlag(s);
      if mineToFlag.Some? {
        return FlagMine(mineToFlag.value);
      }
      var bestGuess := EnhancedProbabilityAnalysis(s);
      if bestGuess.Some? {
        return Guess(bestGuess.value.at);
      }
      return NoMove;
    }

    /**
     * ai.js:56-129: one turn. A solver that should not go on only stops.
     * Otherwise the first click of a game is the first move; later turns play
     * `Decide` on the snapshot of the board: a flag for the flag moves, a click
     * for the others. A turn in step mode that reaches the guess ends the run.
     */
    method MakeNextMove()
      requires game.Valid() && Valid()
      modifies this, game
      ensures game.Valid() && Valid()
      ensures !old(ShouldContinue()) ==>
        Stopped() && lastMove == old(lastMove) && wasRunningWhenFailed == old(wasRunningWhenFailed) &&
        failedPositions == old(failedPositions) && lastFailedPosition == old(lastFailedPosition) && unchanged(game)
      ensures old(ShouldContinue() && game.isFirstClick) ==>
        lastMove.FirstMove? && InBounds(game.width, game.height, lastMove.at)
      ensures old(ShouldContinue() && !game.isFirstClick) ==>
        lastMove == old(Decide(SnapshotOf(game.board, game.width, game.height), game.width, game.height))
      ensures old(ShouldContinue()) && game.isGameOver ==> Stopped()
      ensures old(ShouldContinue() && stepByStepMode) && (lastMove.Guess? || lastMove.NoMove?) ==> !isRunning
      ensures old(ShouldContinue()) && !lastMove.Guess? && !lastMove.NoMove? && !game.isGameOver ==>
        isRunning && stepByStepMode == old(stepByStepMode)
    {
      if !ShouldContinue() {
        StopSolving();
        return;
      }
      var gameState := game.GetGameState();
      SnapshotUnique(gameState, game.board, game.width, game.height);
      lastMove := NoMove;
      if game.isFirstClick {
        MakeFirstMove(gameState);
        return;
      }
      var move := ChooseMove(gameState);
      DecideSound(gameState, game.width, game.height);
      lastMove := move;
      PlayMove(move);
    }

    /**
     * ai.js:73-127: carry out the chosen move, a right click (`FlagCell`) for
     * the flag moves and a left click (`ClickCell`) for the others. The
     * deduced moves return straight after their click (ai.js:80, 95, 105,
     * 114), so a run goes on as it was unless the game ended; a guess or no
     * move at all falls through to the end, which stops a run in step mode.
     * A first move is a click that returns at once (ai.js:66-69).
     */
    method PlayMove(move: Move)
      requires game.Valid() && Valid()
      requires !move.NoMove? ==> InBounds(game.width, game.height, move.at)
      modifies this, game
      ensures game.Valid() && Valid() && lastMove == old(lastMove)
      ensures move.NoMove? ==> unchanged(game) && isRunning == (old(isRunning) && !stepByStepMode)
      ensures move.DeducedFlag? || move.FlagMine? ==>
        (old(game.isGameOver || game.isGameWon || At(game.board, move.at).isRevealed) ==> game.board == old(game.board)) &&
        (!old(game.isGameOver || game.isGameWon || At(game.board, move.at).isRevealed) && !game.isGameOver ==>
          game.board == Toggled(old(game.board), move.at))
      ensures move.FirstMove? || move.DeducedReveal? || move.SafeReveal? || move.Guess? ==>
        (!old(game.Playable(move.at)) ==> game.board == old(game.board)) &&
        (old(game.Playable(move.at)) ==> At(game.board, move.at).isRevealed)
      ensures (move.Guess? || move.NoMove?) && old(stepByStepMode) ==> !isRunning
      ensures !move.Guess? && !move.NoMove? && game.isGameOver == old(game.isGameOver) ==>
        isRunning == old(isRunning) && stepByStepMode == old(stepByStepMode)
      ensures game.isGameOver && !old(game.isGameOver) ==> Stopped()
    {
      if move.DeducedFlag? || move.FlagMine? {
        FlagCell(move.at.x, move.at.y);
      } else if !move.NoMove? {
        var _ := ClickCell(move.at.x, move.at.y);
      }
      if (move.Guess? || move.NoMove?) && stepByStepMode {
        isRunning := false;
      }
    }

    /** ai.js:32-38: unless a continuous run is on, run one turn in step mode. */
    method StepSolve()
      requires game.Valid() && Valid()
      modifies this, game
      ensures game.Valid() && Valid()
      ensures old(isRunning && !stepByStepMode) ==> unchanged(this) && unchanged(game)
      ensures !old(isRunning && !stepByStepMode) && !old(game.isGameOver || game.isGameWon) && !old(game.isFirstClick) ==>
        lastMove == old(Decide(SnapshotOf(game.board, game.width, game.height), game.width, game.height))
      ensures !old(isRunning && !stepByStepMode) && old(game.isGameOver || game.isGameWon) ==>
        Stopped() && unchanged(game)
      ensures !old(isRunning && !stepByStepMode) && (game.isGameOver || lastMove.Guess? || lastMove.NoMove?) ==>
        !isRunning
      ensures !old(isRunning && !stepByStepMode) && !old(game.isGameOver || game.isGameWon) ==>
        (!game.isGameOver && !lastMove.Guess? && !lastMove.NoMove? ==> isRunning && stepByStepMode)
    {
      if isRunning && !stepByStepMode {
        return;
      }
      isRunning := true;
      stepByStepMode := true;
      MakeNextMove();
    }
  }
}
