/**
 * What the solver of ai.js concludes from a snapshot of the board, as pure
 * definitions: the cells it reasons from, the per-cell constraints, the three
 * pairwise rules, the two single-cell rules, the fallback ranking, and the move
 * that `makeNextMove` picks from all of these. The solver's own loops are in
 * the Solver module and are proved to compute these definitions.
 *
 * Soundness is stated against `Consistent` snapshots: every revealed cell is a
 * non-mine carrying the true number of mined neighbours, and every flag sits
 * on a mine. A game in play satisfies the first part by its invariant; the
 * second part holds as long as nobody has placed a wrong flag.
 */
module Deduction {
  import opened Geometry
  import opened Board

  // ----- the solver's view of single cells -----

  /** A revealed number the solver reasons from (ai.js:267, 281, 389, 420): revealed, no mine, not 0. */
  predicate Numbered(s: Snapshot, c: Coord) {
    Look(s, c).isRevealed && !Look(s, c).isMine && Look(s, c).adjacentMines != 0
  }

  /** ai.js:514-535: the 3x3 block centred on `c` lies on the board and none of its nine cells is revealed. */
  ghost predicate IsCentre(s: Snapshot, w: int, h: int, c: Coord) {
    forall n | Near(n, c) :: InBounds(w, h, n) && !Look(s, n).isRevealed
  }

  /** ai.js:358, 395, 426: the unrevealed in-bounds neighbours of `c`, flagged ones included, in scan order. */
  function HiddenOf(s: Snapshot, w: int, h: int, c: Coord): (r: seq<Coord>)
    ensures Distinct(r)
    ensures forall n {:trigger n in r} :: n in r <==> InBounds(w, h, n) && Adjacent(n, c) && !Look(s, n).isRevealed
  {
    Filter(Neighbours(w, h, c), n => !Look(s, n).isRevealed)
  }

  function FlaggedOf(s: Snapshot, cells: seq<Coord>): (r: seq<Coord>)
    ensures forall n {:trigger n in r} :: n in r <==> n in cells && Look(s, n).isFlagged
    ensures Distinct(cells) ==> Distinct(r)
  {
    Filter(cells, n => Look(s, n).isFlagged)
  }

  function UnflaggedOf(s: Snapshot, cells: seq<Coord>): (r: seq<Coord>)
    ensures forall n {:trigger n in r} :: n in r <==> n in cells && !Look(s, n).isFlagged
    ensures Distinct(cells) ==> Distinct(r)
  {
    Filter(cells, n => !Look(s, n).isFlagged)
  }

  /** The result of `getConstraintForCell` (ai.js:355-368). */
  datatype Constraint = Constraint(at: Coord, hidden: seq<Coord>, flagged: nat, minesLeft: nat)

  /**
   * ai.js:355-368: the hidden neighbours of `c`, how many of them carry a flag,
   * and how many mines they still hold by the number of `c`, never below 0.
   */
  function ConstraintOf(s: Snapshot, w: int, h: int, c: Coord): (k: Constraint)
    ensures k.at == c && k.hidden == HiddenOf(s, w, h, c)
    ensures k.flagged == |set n | n in k.hidden && Look(s, n).isFlagged| == |FlaggedOf(s, k.hidden)|
    ensures k.minesLeft == if Look(s, c).adjacentMines > k.flagged then Look(s, c).adjacentMines - k.flagged else 0
  {
    var hidden := HiddenOf(s, w, h, c);
    var flagged := FlaggedOf(s, hidden);
    DistinctCard(flagged);
    assert (set n | n in flagged) == set n | n in hidden && Look(s, n).isFlagged;
    var adj := Look(s, c).adjacentMines;
    Constraint(c, hidden, |flagged|, if adj - |flagged| > 0 then adj - |flagged| else 0)
  }

  /** ai.js:371-375 (`findOverlappingCells`): the cells of `a` that are also in `b`, in the order of `a`. */
  function Shared(a: seq<Coord>, b: seq<Coord>): (r: seq<Coord>)
    ensures forall n {:trigger n in r} :: n in r <==> n in a && n in b
    ensures Distinct(a) ==> Distinct(r)
  {
    Filter(a, n => n in b)
  }

  /** ai.js:294-295 (the `cellInList` filters): the cells of `a` that are not in `b`, in the order of `a`. */
  function Only(a: seq<Coord>, b: seq<Coord>): (r: seq<Coord>)
    ensures forall n {:trigger n in r} :: n in r <==> n in a && n !in b
    ensures Distinct(a) ==> Distinct(r)
  {
    Filter(a, n => n !in b)
  }

  /** A cell the pairwise pass uses (ai.js:267-273, 281-286): a number with at least one hidden neighbour. */
  predicate Source(s: Snapshot, w: int, h: int, c: Coord) {
    InBounds(w, h, c) && Numbered(s, c) && |HiddenOf(s, w, h, c)| > 0
  }

  // ----- consistency and the count of unflagged mines -----

  /** The snapshot tells the truth so far: revealed cells are safe and carry true numbers, flags sit on mines. */
  ghost predicate Consistent(s: Snapshot, w: int, h: int) {
    SnapShaped(s, w, h) &&
    forall c | InBounds(w, h, c) ::
      (Look(s, c).isRevealed ==>
        !Look(s, c).isMine && !Look(s, c).isFlagged &&
        Look(s, c).adjacentMines == |set n | n in Neighbours(w, h, c) && Look(s, n).isMine|) &&
      (Look(s, c).isFlagged ==> Look(s, c).isMine)
  }

  /**
   * The snapshot `getGameState` takes of a board in play, whose numbers are
   * right and whose flags all sit on mines, is consistent.
   */
  lemma SnapshotConsistent(s: Snapshot, g: Grid, w: int, h: int)
    requires IsSnapshotOf(s, g, w, h) && AdjacencyCorrect(g, w, h)
    requires NoRevealedMine(g, w, h) && NoRevealedFlag(g, w, h) && FlagsOnMines(g, w, h)
    ensures Consistent(s, w, h)
  {
    forall c | InBounds(w, h, c) && Look(s, c).isRevealed
      ensures Look(s, c).adjacentMines == |set n | n in Neighbours(w, h, c) && Look(s, n).isMine|
    {
      assert At(g, c).adjacentMines == MinesAround(MineSet(g, w, h), w, h, c);
      MinesAroundCard(MineSet(g, w, h), w, h, c);
      assert (set n | n in Neighbours(w, h, c) && n in MineSet(g, w, h)) ==
        (set n | n in Neighbours(w, h, c) && Look(s, n).isMine);
    }
  }

  /** The mines among `cells` that carry no flag. */
  ghost function UnflaggedMines(s: Snapshot, cells: seq<Coord>): set<Coord> {
    set n | n in cells && Look(s, n).isMine && !Look(s, n).isFlagged
  }

  /**
   * On a consistent snapshot the hidden neighbours of a number hold exactly
   * `minesLeft` unflagged mines: the number counts every mined neighbour, none
   * of them is revealed, and the flagged ones are among them.
   */
  lemma UnflaggedMinesCount(s: Snapshot, w: int, h: int, c: Coord)
    requires Consistent(s, w, h) && InBounds(w, h, c) && Look(s, c).isRevealed
    ensures Look(s, c).adjacentMines >= ConstraintOf(s, w, h, c).flagged
    ensures |UnflaggedMines(s, HiddenOf(s, w, h, c))| == ConstraintOf(s, w, h, c).minesLeft
  {
    var hidden := HiddenOf(s, w, h, c);
    var mines := set n | n in Neighbours(w, h, c) && Look(s, n).isMine;
    var flags := set n | n in hidden && Look(s, n).isFlagged;
    assert mines == set n | n in hidden && Look(s, n).isMine;
    assert flags <= mines;
    assert UnflaggedMines(s, hidden) == mines - flags;
    assert mines == (mines - flags) + flags;
  }

  // ----- the pairwise pass (advancedLogicalReasoning, ai.js:256-352) -----

  /** The two result arrays of the pairwise pass and its `processedCells` set. */
  datatype Found = Found(safe: seq<Coord>, mines: seq<Coord>, processed: set<Coord>)

  /**
   * The push loops of rules 1 and 2 (ai.js:300-306, 313-319): append to `out`
   * each cell of `cells` that is not yet processed, not flagged and not
   * revealed, and mark it processed.
   */
  function PushFresh(s: Snapshot, cells: seq<Coord>, out: seq<Coord>, processed: set<Coord>): (r: (seq<Coord>, set<Coord>))
    ensures |out| <= |r.0| && r.0[..|out|] == out && Distinct(r.0[|out|..])
    ensures forall i | |out| <= i < |r.0| ::
      r.0[i] in cells && r.0[i] !in processed && !Look(s, r.0[i]).isFlagged && !Look(s, r.0[i]).isRevealed
    ensures r.1 == processed + set n | n in r.0[|out|..]
    ensures forall n | n in cells && n !in processed && !Look(s, n).isFlagged && !Look(s, n).isRevealed :: n in r.1
    ensures forall n | n in r.0 :: n in out || (n in cells && !Look(s, n).isFlagged && !Look(s, n).isRevealed)
  {
    if cells == [] then (out, processed)
    else
      var prev := PushFresh(s, cells[..|cells| - 1], out, processed);
      var c := cells[|cells| - 1];
      assert forall n | n in cells :: n in cells[..|cells| - 1] || n == c;
      if c !in prev.1 && !Look(s, c).isFlagged && !Look(s, c).isRevealed then
        var o := prev.0 + [c];
        assert o[..|out|] == out;
        assert o[|out|..] == prev.0[|out|..] + [c];
        assert (set n | n in o[|out|..]) == (set n | n in prev.0[|out|..]) + {c};
        (o, prev.1 + {c})
      else prev
  }

  /**
   * Rule 3 (ai.js:324-345) for a pair whose hidden sets overlap in `shared`
   * cells, with `onlyA` and `onlyC` the cells only the first or only the
   * second constraint sees and `m1`, `m2` their `minesLeft`. Pushes are not
   * filtered and not recorded as processed.
   */
  function Rule3(onlyA: seq<Coord>, onlyC: seq<Coord>, shared: nat, m1: nat, m2: nat, acc: Found): (r: Found)
    requires shared > 0
    ensures r.processed == acc.processed
    ensures r != acc ==>
      |onlyA| == 1 && |onlyC| == 1 && shared == 1 && (m1 - m2 == 1 || m1 - m2 == -1)
    ensures r != acc && m1 - m2 == 1 ==> r.mines == acc.mines + [onlyA[0]] && r.safe == acc.safe + [onlyC[0]]
    ensures r != acc && m1 - m2 == -1 ==> r.safe == acc.safe + [onlyA[0]] && r.mines == acc.mines + [onlyC[0]]
  {
    var uniqueMines := m1 + m2 - shared;
    if |onlyA| > 0 && |onlyC| > 0 && |onlyA| + |onlyC| + shared <= 3 &&
       uniqueMines >= 0 && uniqueMines <= |onlyA| + |onlyC| then
      if |onlyA| == 1 && |onlyC| == 1 && m1 - m2 == 1 then
        acc.(mines := acc.mines + [onlyA[0]], safe := acc.safe + [onlyC[0]])
      else if |onlyA| == 1 && |onlyC| == 1 && m1 - m2 == -1 then
        acc.(safe := acc.safe + [onlyA[0]], mines := acc.mines + [onlyC[0]])
      else acc
    else acc
  }

  /** Rules 1 and 2 and then rule 3 for the ordered pair `c1`, `c2` (ai.js:289-345). */
  function PairStep(s: Snapshot, w: int, h: int, c1: Coord, c2: Coord, acc: Found): Found {
    var k1 := ConstraintOf(s, w, h, c1);
    var k2 := ConstraintOf(s, w, h, c2);
    var shared := Shared(k1.hidden, k2.hidden);
    if shared == [] then acc
    else
      var diff := k1.minesLeft - k2.minesLeft;
      var onlyA := Only(k1.hidden, k2.hidden);
      var onlyC := Only(k2.hidden, k1.hidden);
      var acc1 :=
        if |onlyA| == 0 && diff == 0 then
          var p := PushFresh(s, onlyC, acc.safe, acc.processed); acc.(safe := p.0, processed := p.1)
        else acc;
      var acc2 :=
        if |onlyA| == 0 && diff > 0 && |onlyC| == diff then
          var p := PushFresh(s, onlyC, acc1.mines, acc1.processed); acc1.(mines := p.0, processed := p.1)
        else acc1;
      Rule3(onlyA, onlyC, |shared|, k1.minesLeft, k2.minesLeft, acc2)
  }

  /** The inner pair of loops (ai.js:276-347): `c1` against every other source `c2` of `cs`, in order. */
  function Inner(s: Snapshot, w: int, h: int, c1: Coord, cs: seq<Coord>, acc: Found): Found {
    if cs == [] then acc
    else
      var prev := Inner(s, w, h, c1, cs[..|cs| - 1], acc);
      var c2 := cs[|cs| - 1];
      if c2 != c1 && Source(s, w, h, c2) then PairStep(s, w, h, c1, c2, prev) else prev
  }

  /** The outer pair of loops (ai.js:262-349) over the cells `cs`. */
  function Outer(s: Snapshot, w: int, h: int, cs: seq<Coord>, acc: Found): Found
    requires 0 <= w && 0 <= h
  {
    if cs == [] then acc
    else
      var prev := Outer(s, w, h, cs[..|cs| - 1], acc);
      var c1 := cs[|cs| - 1];
      if Source(s, w, h, c1) then Inner(s, w, h, c1, AllCoords(w, h), prev) else prev
  }

  /** The `{safeMoves, mineMoves}` that `advancedLogicalReasoning` returns. */
  function Reasoning(s: Snapshot, w: int, h: int): Found
    requires 0 <= w && 0 <= h
  {
    Outer(s, w, h, AllCoords(w, h), Found([], [], {}))
  }

  /**
   * What a `Found` value may hold: on-board hidden cells only; and, on a
   * consistent snapshot, mines that are real unflagged mines and safe cells
   * that are not unflagged mines.
   */
  ghost predicate Justified(s: Snapshot, w: int, h: int, acc: Found) {
    (forall n | n in acc.safe :: InBounds(w, h, n) && !Look(s, n).isRevealed) &&
    (forall n | n in acc.mines :: InBounds(w, h, n) && !Look(s, n).isRevealed) &&
    (Consistent(s, w, h) ==>
      (forall n | n in acc.mines :: Look(s, n).isMine && !Look(s, n).isFlagged) &&
      (forall n | n in acc.safe :: Look(s, n).isMine ==> Look(s, n).isFlagged))
  }

  /**
   * Rule 1 is sound (ai.js:298-307): when the hidden cells of `c1` all lie
   * among those of `c2` and both still miss as many mines, the cells only `c2`
   * sees hold no unflagged mine.
   */
  lemma Rule1Sound(s: Snapshot, w: int, h: int, c1: Coord, c2: Coord)
    requires Consistent(s, w, h) && Source(s, w, h, c1) && Source(s, w, h, c2)
    requires |Only(ConstraintOf(s, w, h, c1).hidden, ConstraintOf(s, w, h, c2).hidden)| == 0
    requires ConstraintOf(s, w, h, c1).minesLeft == ConstraintOf(s, w, h, c2).minesLeft
    ensures forall n | n in Only(ConstraintOf(s, w, h, c2).hidden, ConstraintOf(s, w, h, c1).hidden) ::
      Look(s, n).isMine ==> Look(s, n).isFlagged
  {
    var k1, k2 := ConstraintOf(s, w, h, c1), ConstraintOf(s, w, h, c2);
    UnflaggedMinesCount(s, w, h, c1);
    UnflaggedMinesCount(s, w, h, c2);
    ContainedEqual(s, k1.hidden, k2.hidden);
  }

  /** When `a` lies inside `b` and both hold as many unflagged mines, `b` has none outside `a`. */
  lemma ContainedEqual(s: Snapshot, a: seq<Coord>, b: seq<Coord>)
    requires |Only(a, b)| == 0 && |UnflaggedMines(s, a)| == |UnflaggedMines(s, b)|
    ensures forall n | n in Only(b, a) :: Look(s, n).isMine ==> Look(s, n).isFlagged
  {
    ContainedSubset(s, a, b);
    SubsetFull(UnflaggedMines(s, a), UnflaggedMines(s, b));
    forall n | n in Only(b, a) && Look(s, n).isMine
      ensures Look(s, n).isFlagged
    {
      assert n !in UnflaggedMines(s, a);
    }
  }

  lemma ContainedSubset(s: Snapshot, a: seq<Coord>, b: seq<Coord>)
    requires |Only(a, b)| == 0
    ensures forall n | n in a :: n in b
    ensures UnflaggedMines(s, a) <= UnflaggedMines(s, b)
  {
    forall n | n in a
      ensures n in b
    {
      assert n !in Only(a, b);
    }
  }

  /**
   * Rule 2 never fires on a consistent snapshot (ai.js:310): when the hidden
   * cells of `c1` all lie among those of `c2`, `c1` cannot miss more mines.
   */
  lemma Rule2Dead(s: Snapshot, w: int, h: int, c1: Coord, c2: Coord)
    requires Consistent(s, w, h) && Source(s, w, h, c1) && Source(s, w, h, c2)
    requires |Only(ConstraintOf(s, w, h, c1).hidden, ConstraintOf(s, w, h, c2).hidden)| == 0
    ensures ConstraintOf(s, w, h, c1).minesLeft <= ConstraintOf(s, w, h, c2).minesLeft
  {
    var k1, k2 := ConstraintOf(s, w, h, c1), ConstraintOf(s, w, h, c2);
    UnflaggedMinesCount(s, w, h, c1);
    UnflaggedMinesCount(s, w, h, c2);
    ContainedSubset(s, k1.hidden, k2.hidden);
    SubsetCard(UnflaggedMines(s, k1.hidden), UnflaggedMines(s, k2.hidden));
  }

  /** The unflagged mines of `cells` are those of `both` and, if it is one, the single cell `a`. */
  lemma SplitUnflagged(s: Snapshot, cells: seq<Coord>, both: seq<Coord>, a: Coord)
    requires a !in both
    requires forall n | n in cells :: n in both || n == a
    requires a in cells && forall n | n in both :: n in cells
    ensures |UnflaggedMines(s, cells)| ==
      |UnflaggedMines(s, both)| + if Look(s, a).isMine && !Look(s, a).isFlagged then 1 else 0
  {
    if Look(s, a).isMine && !Look(s, a).isFlagged {
      assert UnflaggedMines(s, cells) == UnflaggedMines(s, both) + {a};
    } else {
      assert UnflaggedMines(s, cells) == UnflaggedMines(s, both);
    }
  }

  /**
   * Two lists that share `Shared(a, b)` and each have one cell of their own:
   * their unflagged mine counts differ by the difference on those two cells.
   */
  lemma CrossedCounts(s: Snapshot, a: seq<Coord>, b: seq<Coord>)
    requires |Only(a, b)| == 1 && |Only(b, a)| == 1
    ensures var x, y := Only(a, b)[0], Only(b, a)[0];
      |UnflaggedMines(s, a)| - |UnflaggedMines(s, b)| ==
        (if Look(s, x).isMine && !Look(s, x).isFlagged then 1 else 0) -
        (if Look(s, y).isMine && !Look(s, y).isFlagged then 1 else 0)
  {
    var onlyA, onlyB := Only(a, b), Only(b, a);
    var x, y := onlyA[0], onlyB[0];
    assert x in onlyA && y in onlyB;
    var both, both2 := Shared(a, b), Shared(b, a);
    forall n | n in a
      ensures n in both || n == x
    {
      if n !in b {
        assert n in onlyA;
      }
    }
    forall n | n in b
      ensures n in both2 || n == y
    {
      if n !in a {
        assert n in onlyB;
      }
    }
    SplitUnflagged(s, a, both, x);
    SplitUnflagged(s, b, both2, y);
    assert UnflaggedMines(s, both2) == UnflaggedMines(s, both);
  }

  /**
   * Rule 3 is sound (ai.js:335-343): when each constraint sees one cell the
   * other does not and they differ by one mine, the cell of the constraint
   * missing more is an unflagged mine and the other one holds no unflagged mine.
   */
  lemma Rule3Sound(s: Snapshot, w: int, h: int, c1: Coord, c2: Coord)
    requires Consistent(s, w, h) && Source(s, w, h, c1) && Source(s, w, h, c2)
    requires |Only(ConstraintOf(s, w, h, c1).hidden, ConstraintOf(s, w, h, c2).hidden)| == 1
    requires |Only(ConstraintOf(s, w, h, c2).hidden, ConstraintOf(s, w, h, c1).hidden)| == 1
    ensures var k1, k2 := ConstraintOf(s, w, h, c1), ConstraintOf(s, w, h, c2);
      var a, b := Only(k1.hidden, k2.hidden)[0], Only(k2.hidden, k1.hidden)[0];
      (k1.minesLeft - k2.minesLeft == 1 ==>
        Look(s, a).isMine && !Look(s, a).isFlagged && (Look(s, b).isMine ==> Look(s, b).isFlagged)) &&
      (k1.minesLeft - k2.minesLeft == -1 ==>
        Look(s, b).isMine && !Look(s, b).isFlagged && (Look(s, a).isMine ==> Look(s, a).isFlagged))
  {
    var k1, k2 := ConstraintOf(s, w, h, c1), ConstraintOf(s, w, h, c2);
    UnflaggedMinesCount(s, w, h, c1);
    UnflaggedMinesCount(s, w, h, c2);
    CrossedCounts(s, k1.hidden, k2.hidden);
  }

  /** The rule 1 and rule 2 pushes of one pair keep `Justified`; rule 2 adds nothing on a consistent snapshot. */
  lemma Rules12Justified(s: Snapshot, w: int, h: int, c1: Coord, c2: Coord, acc: Found)
    requires Source(s, w, h, c1) && Source(s, w, h, c2) && Justified(s, w, h, acc)
    requires |Shared(ConstraintOf(s, w, h, c1).hidden, ConstraintOf(s, w, h, c2).hidden)| > 0
    ensures var k1, k2 := ConstraintOf(s, w, h, c1), ConstraintOf(s, w, h, c2);
      var diff := k1.minesLeft - k2.minesLeft;
      var onlyA, onlyC := Only(k1.hidden, k2.hidden), Only(k2.hidden, k1.hidden);
      var acc1 :=
        if |onlyA| == 0 && diff == 0 then
          var p := PushFresh(s, onlyC, acc.safe, acc.processed); acc.(safe := p.0, processed := p.1)
        else acc;
      var acc2 :=
        if |onlyA| == 0 && diff > 0 && |onlyC| == diff then
          var p := PushFresh(s, onlyC, acc1.mines, acc1.processed); acc1.(mines := p.0, processed := p.1)
        else acc1;
      Justified(s, w, h, acc2) && acc.processed <= acc2.processed
  {
    var k1, k2 := ConstraintOf(s, w, h, c1), ConstraintOf(s, w, h, c2);
    var diff := k1.minesLeft - k2.minesLeft;
    var onlyA, onlyC := Only(k1.hidden, k2.hidden), Only(k2.hidden, k1.hidden);
    if |onlyA| == 0 && diff == 0 {
      if Consistent(s, w, h) {
        Rule1Sound(s, w, h, c1, c2);
      }
    }
    if |onlyA| == 0 && Consistent(s, w, h) {
      Rule2Dead(s, w, h, c1, c2);
    }
  }

  /** The rule 3 pushes of one pair keep `Justified`. */
  lemma Rule3Justified(s: Snapshot, w: int, h: int, c1: Coord, c2: Coord, acc: Found)
    requires Source(s, w, h, c1) && Source(s, w, h, c2) && Justified(s, w, h, acc)
    requires |Shared(ConstraintOf(s, w, h, c1).hidden, ConstraintOf(s, w, h, c2).hidden)| > 0
    ensures var k1, k2 := ConstraintOf(s, w, h, c1), ConstraintOf(s, w, h, c2);
      var shared := Shared(k1.hidden, k2.hidden);
      var onlyA, onlyC := Only(k1.hidden, k2.hidden), Only(k2.hidden, k1.hidden);
      Justified(s, w, h, Rule3(onlyA, onlyC, |shared|, k1.minesLeft, k2.minesLeft, acc))
  {
    var k1, k2 := ConstraintOf(s, w, h, c1), ConstraintOf(s, w, h, c2);
    var shared := Shared(k1.hidden, k2.hidden);
    var onlyA, onlyC := Only(k1.hidden, k2.hidden), Only(k2.hidden, k1.hidden);
    var r := Rule3(onlyA, onlyC, |shared|, k1.minesLeft, k2.minesLeft, acc);
    if r != acc {
      var a, b := onlyA[0], onlyC[0];
      assert a in onlyA && b in onlyC;
      if Consistent(s, w, h) {
        Rule3Sound(s, w, h, c1, c2);
      }
      if k1.minesLeft - k2.minesLeft == 1 {
        JustifiedPush(s, w, h, acc, a, b);
      } else {
        JustifiedPush(s, w, h, acc, b, a);
      }
    }
  }

  /** Adding an unflagged mine `m` to the mines and a cell `x` without one to the safe cells keeps `Justified`. */
  lemma JustifiedPush(s: Snapshot, w: int, h: int, acc: Found, m: Coord, x: Coord)
    requires Justified(s, w, h, acc)
    requires InBounds(w, h, m) && !Look(s, m).isRevealed && InBounds(w, h, x) && !Look(s, x).isRevealed
    requires Consistent(s, w, h) ==>
      Look(s, m).isMine && !Look(s, m).isFlagged && (Look(s, x).isMine ==> Look(s, x).isFlagged)
    ensures Justified(s, w, h, acc.(mines := acc.mines + [m], safe := acc.safe + [x]))
  {
  }

  /** Every step of the pairwise pass keeps `Justified` and only grows `processedCells`. */
  lemma PairStepJustified(s: Snapshot, w: int, h: int, c1: Coord, c2: Coord, acc: Found)
    requires Source(s, w, h, c1) && Source(s, w, h, c2) && Justified(s, w, h, acc)
    ensures Justified(s, w, h, PairStep(s, w, h, c1, c2, acc))
    ensures acc.processed <= PairStep(s, w, h, c1, c2, acc).processed
  {
    var k1, k2 := ConstraintOf(s, w, h, c1), ConstraintOf(s, w, h, c2);
    var shared := Shared(k1.hidden, k2.hidden);
    if shared != [] {
      var diff := k1.minesLeft - k2.minesLeft;
      var onlyA, onlyC := Only(k1.hidden, k2.hidden), Only(k2.hidden, k1.hidden);
      var acc1 :=
        if |onlyA| == 0 && diff == 0 then
          var p := PushFresh(s, onlyC, acc.safe, acc.processed); acc.(safe := p.0, processed := p.1)
        else acc;
      var acc2 :=
        if |onlyA| == 0 && diff > 0 && |onlyC| == diff then
          var p := PushFresh(s, onlyC, acc1.mines, acc1.processed); acc1.(mines := p.0, processed := p.1)
        else acc1;
      Rules12Justified(s, w, h, c1, c2, acc);
      Rule3Justified(s, w, h, c1, c2, acc2);
    }
  }

  lemma {:induction false} InnerJustified(s: Snapshot, w: int, h: int, c1: Coord, cs: seq<Coord>, acc: Found)
    requires Source(s, w, h, c1) && Justified(s, w, h, acc)
    ensures Justified(s, w, h, Inner(s, w, h, c1, cs, acc))
    ensures acc.processed <= Inner(s, w, h, c1, cs, acc).processed
  {
    if cs != [] {
      InnerJustified(s, w, h, c1, cs[..|cs| - 1], acc);
      var c2 := cs[|cs| - 1];
      if c2 != c1 && Source(s, w, h, c2) {
        PairStepJustified(s, w, h, c1, c2, Inner(s, w, h, c1, cs[..|cs| - 1], acc));
      }
    }
  }

  lemma {:induction false} OuterJustified(s: Snapshot, w: int, h: int, cs: seq<Coord>, acc: Found)
    requires 0 <= w && 0 <= h && Justified(s, w, h, acc)
    ensures Justified(s, w, h, Outer(s, w, h, cs, acc))
    ensures acc.processed <= Outer(s, w, h, cs, acc).processed
  {
    if cs != [] {
      OuterJustified(s, w, h, cs[..|cs| - 1], acc);
      var c1 := cs[|cs| - 1];
      if Source(s, w, h, c1) {
        InnerJustified(s, w, h, c1, AllCoords(w, h), Outer(s, w, h, cs[..|cs| - 1], acc));
      }
    }
  }

  /**
   * What `advancedLogicalReasoning` returns are hidden cells of the board;
   * on a consistent snapshot its mines are unflagged mines and its safe cells
   * hold no unflagged mine.
   */
  lemma ReasoningJustified(s: Snapshot, w: int, h: int)
    requires 0 <= w && 0 <= h
    ensures Justified(s, w, h, Reasoning(s, w, h))
  {
    OuterJustified(s, w, h, AllCoords(w, h), Found([], [], {}));
  }

  // ----- the single-cell rules (findSafeMove, findMineToFlag) -----

  /**
   * `findSafeMove` at the number `c` (ai.js:386-407): when its flagged hidden
   * neighbours match its number, its first unflagged hidden neighbour that is
   * not the centre of an unrevealed 3x3.
   */
  ghost function SafeFrom(s: Snapshot, w: int, h: int, c: Coord): (r: Option<Coord>)
    ensures r.Some? ==>
      InBounds(w, h, c) && Numbered(s, c) &&
      |FlaggedOf(s, HiddenOf(s, w, h, c))| == Look(s, c).adjacentMines &&
      r.value in UnflaggedOf(s, HiddenOf(s, w, h, c)) && !IsCentre(s, w, h, r.value)
  {
    if InBounds(w, h, c) && Numbered(s, c) then
      var hidden := HiddenOf(s, w, h, c);
      if |FlaggedOf(s, hidden)| == Look(s, c).adjacentMines then
        FirstWhere(UnflaggedOf(s, hidden), n => !IsCentre(s, w, h, n))
      else None
    else None
  }

  /** ai.js:383-411: the safe cell of the first number in row-major order that offers one. */
  ghost function SafeMove(s: Snapshot, w: int, h: int): Option<Coord>
    requires 0 <= w && 0 <= h
  {
    match FirstWhere(AllCoords(w, h), c => SafeFrom(s, w, h, c).Some?)
    case None => None
    case Some(c) => SafeFrom(s, w, h, c)
  }

  /** The scan of `findSafeMove` stops at `c` when `c` offers a cell and no cell before it does. */
  lemma SafeMoveAt(s: Snapshot, w: int, h: int, c: Coord)
    requires 0 <= w && 0 <= h && InBounds(w, h, c) && SafeFrom(s, w, h, c).Some?
    requires forall d | InBounds(w, h, d) && Earlier(d, c) :: SafeFrom(s, w, h, d).None?
    ensures SafeMove(s, w, h) == SafeFrom(s, w, h, c)
  {
    AllCoordsShape(w, h);
    FirstWhereSorted(AllCoords(w, h), d => SafeFrom(s, w, h, d).Some?, c);
  }

  /**
   * `findMineToFlag` at the number `c` (ai.js:417-433): when its unflagged
   * hidden neighbours are as many as its number minus its flags, and there is
   * at least one, the first of them.
   */
  ghost function MineFrom(s: Snapshot, w: int, h: int, c: Coord): (r: Option<Coord>)
    ensures r.Some? ==>
      InBounds(w, h, c) && Numbered(s, c) &&
      |UnflaggedOf(s, HiddenOf(s, w, h, c))| == Look(s, c).adjacentMines - |FlaggedOf(s, HiddenOf(s, w, h, c))| &&
      r.value in UnflaggedOf(s, HiddenOf(s, w, h, c))
  {
    if InBounds(w, h, c) && Numbered(s, c) then
      var hidden := HiddenOf(s, w, h, c);
      var unflagged := UnflaggedOf(s, hidden);
      if |unflagged| == Look(s, c).adjacentMines - |FlaggedOf(s, hidden)| && |unflagged| > 0 then
        Some(unflagged[0])
      else None
    else None
  }

  /** ai.js:414-437: the cell to flag of the first number in row-major order that offers one. */
  ghost function MineToFlag(s: Snapshot, w: int, h: int): Option<Coord>
    requires 0 <= w && 0 <= h
  {
    match FirstWhere(AllCoords(w, h), c => MineFrom(s, w, h, c).Some?)
    case None => None
    case Some(c) => MineFrom(s, w, h, c)
  }

  /** The scan of `findMineToFlag` stops at `c` when `c` offers a cell and no cell before it does. */
  lemma MineToFlagAt(s: Snapshot, w: int, h: int, c: Coord)
    requires 0 <= w && 0 <= h && InBounds(w, h, c) && MineFrom(s, w, h, c).Some?
    requires forall d | InBounds(w, h, d) && Earlier(d, c) :: MineFrom(s, w, h, d).None?
    ensures MineToFlag(s, w, h) == MineFrom(s, w, h, c)
  {
    AllCoordsShape(w, h);
    FirstWhereSorted(AllCoords(w, h), d => MineFrom(s, w, h, d).Some?, c);
  }

  /**
   * The cell `findSafeMove` returns is a hidden, unflagged neighbour of a
   * satisfied number and no unrevealed-3x3 centre; on a consistent snapshot it
   * holds no mine. It finds none exactly when no number offers one.
   */
  lemma SafeMoveSound(s: Snapshot, w: int, h: int)
    requires 0 <= w && 0 <= h
    ensures SafeMove(s, w, h).None? <==> forall c | InBounds(w, h, c) :: SafeFrom(s, w, h, c).None?
    ensures SafeMove(s, w, h).Some? ==>
      var n := SafeMove(s, w, h).value;
      InBounds(w, h, n) && !Look(s, n).isRevealed && !Look(s, n).isFlagged && !IsCentre(s, w, h, n) &&
      (Consistent(s, w, h) ==> !Look(s, n).isMine)
  {
    AllCoordsShape(w, h);
    var first := FirstWhere(AllCoords(w, h), c => SafeFrom(s, w, h, c).Some?);
    if first.Some? {
      var c := first.value;
      var n := SafeFrom(s, w, h, c).value;
      assert n in HiddenOf(s, w, h, c);
      if Consistent(s, w, h) {
        UnflaggedMinesCount(s, w, h, c);
        assert n !in UnflaggedMines(s, HiddenOf(s, w, h, c));
      }
    } else {
      assert forall c | InBounds(w, h, c) :: c in AllCoords(w, h);
    }
  }

  /** When the unflagged cells of a list are as many as its unflagged mines, they are all mines. */
  lemma AllUnflaggedMines(s: Snapshot, cells: seq<Coord>)
    requires Distinct(cells) && |UnflaggedMines(s, cells)| == |UnflaggedOf(s, cells)|
    ensures forall n | n in UnflaggedOf(s, cells) :: Look(s, n).isMine
  {
    var unflagged := UnflaggedOf(s, cells);
    DistinctCard(unflagged);
    assert UnflaggedMines(s, cells) <= set m | m in unflagged;
    SubsetFull(UnflaggedMines(s, cells), set m | m in unflagged);
    forall n | n in unflagged
      ensures Look(s, n).isMine
    {
      assert n in set m | m in unflagged;
      assert n in UnflaggedMines(s, cells);
    }
  }

  /**
   * The cell `findMineToFlag` returns is a hidden, unflagged neighbour of a
   * number; on a consistent snapshot it is a mine. It finds none exactly when
   * no number offers one.
   */
  lemma MineToFlagSound(s: Snapshot, w: int, h: int)
    requires 0 <= w && 0 <= h
    ensures MineToFlag(s, w, h).None? <==> forall c | InBounds(w, h, c) :: MineFrom(s, w, h, c).None?
    ensures MineToFlag(s, w, h).Some? ==>
      var n := MineToFlag(s, w, h).value;
      InBounds(w, h, n) && !Look(s, n).isRevealed && !Look(s, n).isFlagged &&
      (Consistent(s, w, h) ==> Look(s, n).isMine)
  {
    AllCoordsShape(w, h);
    var first := FirstWhere(AllCoords(w, h), c => MineFrom(s, w, h, c).Some?);
    if first.Some? {
      var c := first.value;
      var n := MineFrom(s, w, h, c).value;
      var hidden := HiddenOf(s, w, h, c);
      assert n in hidden;
      if Consistent(s, w, h) {
        UnflaggedMinesCount(s, w, h, c);
        AllUnflaggedMines(s, hidden);
      }
    } else {
      assert forall c | InBounds(w, h, c) :: c in AllCoords(w, h);
    }
  }

  // ----- the guess (enhancedProbabilityAnalysis) -----

  /** ai.js:460-463: some revealed non-mine neighbour of `c` shows a positive number. */
  predicate Informed(s: Snapshot, w: int, h: int, c: Coord) {
    exists n | n in Neighbours(w, h, c) ::
      Look(s, n).isRevealed && !Look(s, n).isMine && Look(s, n).adjacentMines > 0
  }

  /** ai.js:450-452: the cells the guess considers, those neither revealed nor flagged. */
  predicate Candidate(s: Snapshot, w: int, h: int, c: Coord) {
    InBounds(w, h, c) && !Look(s, c).isRevealed && !Look(s, c).isFlagged
  }

  /**
   * The mine probability given to a candidate (ai.js:455, 463-483). An informed
   * candidate averages per-neighbour shares that all come out 0: the count of
   * unflagged hidden cells is already a number, so its `length` is undefined and
   * the test `length > 0` is false. An uninformed one keeps the base 0.15.
   */
  function Probability(informed: bool): real {
    if informed then 0.0 else 0.15
  }

  /** One entry of the `probabilities` list (ai.js:489-496), less its text reason. */
  datatype Entry = Entry(at: Coord, probability: real, hasInfo: bool, isCentre: bool)

  ghost function EntryOf(s: Snapshot, w: int, h: int, c: Coord): (e: Entry)
    ensures e.at == c && e.probability == Probability(e.hasInfo)
  {
    var informed := Informed(s, w, h, c);
    Entry(c, Probability(informed), informed, IsCentre(s, w, h, c))
  }

  /** The sort comparator of ai.js:501-508: informed first, then non-centres, then lower probability. */
  function Compare(a: Entry, b: Entry): real {
    if a.hasInfo != b.hasInfo then (if a.hasInfo then -1.0 else 1.0)
    else if a.isCentre != b.isCentre then (if a.isCentre then 1.0 else -1.0)
    else a.probability - b.probability
  }

  /** The class of an entry in the comparator's order: informed non-centre, informed centre, uninformed non-centre, uninformed centre. */
  function Rank(e: Entry): nat {
    (if e.hasInfo then 0 else 2) + (if e.isCentre then 1 else 0)
  }

  /** On entries whose probability follows `Probability`, the comparator orders by `Rank` and ties exactly within a class. */
  lemma CompareRank(a: Entry, b: Entry)
    requires a.probability == Probability(a.hasInfo) && b.probability == Probability(b.hasInfo)
    ensures Compare(a, b) < 0.0 <==> Rank(a) < Rank(b)
    ensures Compare(a, b) == 0.0 <==> Rank(a) == Rank(b)
    ensures Compare(a, b) == -Compare(b, a)
  {
  }

  /** The `probabilities` list that the scan of ai.js:445-498 builds over the cells `cs`, in their order. */
  ghost function Entries(s: Snapshot, w: int, h: int, cs: seq<Coord>): (es: seq<Entry>)
    ensures forall e | e in es :: e.at in cs && Candidate(s, w, h, e.at) && e == EntryOf(s, w, h, e.at)
    ensures forall c | c in cs && Candidate(s, w, h, c) :: EntryOf(s, w, h, c) in es
  {
    if cs == [] then []
    else
      var rest := Entries(s, w, h, cs[..|cs| - 1]);
      var c := cs[|cs| - 1];
      assert forall d | d in cs[..|cs| - 1] :: d in cs;
      if Candidate(s, w, h, c) then rest + [EntryOf(s, w, h, c)] else rest
  }

  /** Entries built over a row-major list stay in row-major order. */
  lemma {:induction false} EntriesSorted(s: Snapshot, w: int, h: int, cs: seq<Coord>)
    requires SortedRowMajor(cs)
    ensures forall i, j | 0 <= i < j < |Entries(s, w, h, cs)| ::
      Earlier(Entries(s, w, h, cs)[i].at, Entries(s, w, h, cs)[j].at)
  {
    if cs != [] {
      var front := cs[..|cs| - 1];
      var c := cs[|cs| - 1];
      EntriesSorted(s, w, h, front);
      forall d | d in front
        ensures Earlier(d, c)
      {
        var k :| 0 <= k < |front| && front[k] == d;
        assert cs[k] == d;
      }
    }
  }

  /** Position `i` holds the first least entry of `es` by `Rank`. */
  predicate LeastAt(es: seq<Entry>, i: nat)
    requires i < |es|
  {
    (forall j | 0 <= j < i :: Rank(es[j]) > Rank(es[i])) &&
    (forall j | i < j < |es| :: Rank(es[j]) >= Rank(es[i]))
  }

  /**
   * The position of what `sort(compare)[0]` returns (ai.js:501-510): the sort
   * is stable, so it is the first entry that no entry compares below.
   */
  function FirstLeast(es: seq<Entry>): (r: Option<nat>)
    requires forall e | e in es :: e.probability == Probability(e.hasInfo)
    ensures r.None? <==> es == []
    ensures r.Some? ==> r.value < |es| && LeastAt(es, r.value)
  {
    if es == [] then None
    else
      var front := es[..|es| - 1];
      var e := es[|es| - 1];
      assert forall d | d in front :: d in es;
      var prev := FirstLeast(front);
      if prev.None? then Some(|es| - 1)
      else
        CompareRank(e, es[prev.value]);
        if Compare(e, es[prev.value]) < 0.0 then Some(|es| - 1) else prev
  }

  /** The candidate `enhancedProbabilityAnalysis` returns, if any (ai.js:440-511). */
  ghost function BestGuess(s: Snapshot, w: int, h: int): Option<Entry>
    requires 0 <= w && 0 <= h
  {
    var es := Entries(s, w, h, AllCoords(w, h));
    match FirstLeast(es)
    case None => None
    case Some(i) => Some(es[i])
  }

  /** The first least entry of a row-major list of entries ties or beats every entry, and strictly beats the earlier ones. */
  lemma LeastBeats(s: Snapshot, w: int, h: int, es: seq<Entry>, i: nat, c: Coord)
    requires i < |es| && LeastAt(es, i) && EntryOf(s, w, h, c) in es
    requires forall a, b | 0 <= a < b < |es| :: Earlier(es[a].at, es[b].at)
    requires forall e | e in es :: e == EntryOf(s, w, h, e.at)
    ensures Rank(EntryOf(s, w, h, c)) >= Rank(es[i])
    ensures Earlier(c, es[i].at) ==> Rank(EntryOf(s, w, h, c)) > Rank(es[i])
  {
    var j :| 0 <= j < |es| && es[j] == EntryOf(s, w, h, c);
    if Earlier(c, es[i].at) {
      assert j < i;
    }
  }

  /**
   * The guess is a candidate that no candidate beats under the comparator, and
   * every candidate before it in row-major order is strictly worse. There is no
   * guess exactly when every cell is revealed or flagged.
   */
  lemma BestGuessSpec(s: Snapshot, w: int, h: int)
    requires 0 <= w && 0 <= h
    ensures BestGuess(s, w, h).None? <==> forall c | InBounds(w, h, c) :: !Candidate(s, w, h, c)
    ensures BestGuess(s, w, h).Some? ==>
      var e := BestGuess(s, w, h).value;
      Candidate(s, w, h, e.at) && e == EntryOf(s, w, h, e.at) &&
      forall c | Candidate(s, w, h, c) ::
        Rank(EntryOf(s, w, h, c)) >= Rank(e) &&
        (Earlier(c, e.at) ==> Rank(EntryOf(s, w, h, c)) > Rank(e))
  {
    AllCoordsShape(w, h);
    var es := Entries(s, w, h, AllCoords(w, h));
    EntriesSorted(s, w, h, AllCoords(w, h));
    if BestGuess(s, w, h).Some? {
      var i := FirstLeast(es).value;
      var e := es[i];
      forall c | Candidate(s, w, h, c)
        ensures Rank(EntryOf(s, w, h, c)) >= Rank(e)
        ensures Earlier(c, e.at) ==> Rank(EntryOf(s, w, h, c)) > Rank(e)
      {
        assert c in AllCoords(w, h);
        LeastBeats(s, w, h, es, i, c);
      }
    } else {
      assert forall c | InBounds(w, h, c) :: c in AllCoords(w, h);
    }
  }

  /**
   * In words: the guess is informed whenever some candidate is, and it is the
   * centre of an unrevealed 3x3 only when every candidate as informed as it is
   * such a centre too.
   */
  lemma GuessPreference(s: Snapshot, w: int, h: int)
    requires 0 <= w && 0 <= h
    ensures BestGuess(s, w, h).Some? ==>
      var e := BestGuess(s, w, h).value;
      ((exists c | Candidate(s, w, h, c) :: Informed(s, w, h, c)) ==> e.hasInfo) &&
      (e.isCentre ==> forall c | Candidate(s, w, h, c) && Informed(s, w, h, c) == e.hasInfo :: IsCentre(s, w, h, c))
  {
    BestGuessSpec(s, w, h);
    if BestGuess(s, w, h).Some? {
      var e := BestGuess(s, w, h).value;
    }
  }

  // ----- the move (makeNextMove after the first click) -----

  /** What `makeNextMove` does, and why; it takes the place of `lastMoveReason` (ai.js:63-123). */
  datatype Move =
    | NoMove
    | FirstMove(at: Coord)
    | DeducedFlag(at: Coord)
    | DeducedReveal(at: Coord)
    | SafeReveal(at: Coord)
    | FlagMine(at: Coord)
    | Guess(at: Coord)

  /**
   * The move chosen once mines are laid (ai.js:71-123), in priority order: the
   * first deduced mine, the first deduced safe cell that is not a 3x3 centre,
   * `findSafeMove`, `findMineToFlag`, the best guess, nothing.
   */
  ghost function Decide(s: Snapshot, w: int, h: int): Move
    requires 0 <= w && 0 <= h
  {
    var found := Reasoning(s, w, h);
    if |found.mines| > 0 then DeducedFlag(found.mines[0])
    else match FirstWhere(found.safe, n => !IsCentre(s, w, h, n))
    case Some(n) => DeducedReveal(n)
    case None =>
      match SafeMove(s, w, h)
      case Some(n) => SafeReveal(n)
      case None =>
        match MineToFlag(s, w, h)
        case Some(n) => FlagMine(n)
        case None =>
          match BestGuess(s, w, h)
          case Some(e) => Guess(e.at)
          case None => NoMove
  }

  /**
   * Every move targets a hidden on-board cell, and there is no move only when
   * every cell is revealed or flagged. On a consistent snapshot the deductions
   * are right: a flag goes on an unflagged mine, and a reveal is never an
   * unflagged mine (a flagged one ignores the click).
   */
  lemma DecideSound(s: Snapshot, w: int, h: int)
    requires 0 <= w && 0 <= h
    ensures var m := Decide(s, w, h);
      (!m.NoMove? ==> InBounds(w, h, m.at) && !Look(s, m.at).isRevealed) &&
      (m.NoMove? ==> forall c | InBounds(w, h, c) :: Look(s, c).isRevealed || Look(s, c).isFlagged) &&
      (m.Guess? ==> !Look(s, m.at).isFlagged) &&
      (Consistent(s, w, h) && (m.DeducedFlag? || m.FlagMine?) ==> Look(s, m.at).isMine && !Look(s, m.at).isFlagged) &&
      (Consistent(s, w, h) && (m.DeducedReveal? || m.SafeReveal?) ==> (Look(s, m.at).isMine ==> Look(s, m.at).isFlagged))
  {
    ReasoningJustified(s, w, h);
    SafeMoveSound(s, w, h);
    MineToFlagSound(s, w, h);
    BestGuessSpec(s, w, h);
    var found := Reasoning(s, w, h);
    if |found.mines| > 0 {
      assert found.mines[0] in found.mines;
    }
  }

  /** With no number to reason from, the pairwise pass finds nothing. */
  lemma {:induction false} OuterIdle(s: Snapshot, w: int, h: int, cs: seq<Coord>, acc: Found)
    requires 0 <= w && 0 <= h
    requires forall c | c in cs :: !Source(s, w, h, c)
    ensures Outer(s, w, h, cs, acc) == acc
  {
    if cs != [] {
      assert forall c | c in cs[..|cs| - 1] :: c in cs;
      OuterIdle(s, w, h, cs[..|cs| - 1], acc);
    }
  }

  /**
   * On a board where no cell is revealed or flagged, as a replayed minefield
   * is before its first move, nothing can be deduced and every cell is an
   * uninformed candidate; the top-left corner is not a 3x3 centre and comes
   * first in row-major order, so the move is a guess there. `Decide` takes no
   * failure list: the corner is guessed whatever failures are on record.
   */
  lemma ClosedBoardGuess(s: Snapshot, w: int, h: int)
    requires 0 < w && 0 < h
    requires forall c | InBounds(w, h, c) :: !Look(s, c).isRevealed && !Look(s, c).isFlagged
    ensures Decide(s, w, h) == Guess(Coord(0, 0))
  {
    NothingDeduced(s, w, h);
    CornerGuess(s, w, h);
  }

  /** With no cell revealed, the pairwise pass and both single-number scans find nothing. */
  lemma NothingDeduced(s: Snapshot, w: int, h: int)
    requires 0 <= w && 0 <= h
    requires forall c | InBounds(w, h, c) :: !Look(s, c).isRevealed
    ensures Reasoning(s, w, h) == Found([], [], {})
    ensures SafeMove(s, w, h).None? && MineToFlag(s, w, h).None?
  {
    forall c | InBounds(w, h, c)
      ensures !Source(s, w, h, c) && SafeFrom(s, w, h, c).None? && MineFrom(s, w, h, c).None?
    {
    }
    OuterIdle(s, w, h, AllCoords(w, h), Found([], [], {}));
  }

  /** With no cell revealed or flagged, the best guess is the top-left corner. */
  lemma CornerGuess(s: Snapshot, w: int, h: int)
    requires 0 < w && 0 < h
    requires forall c | InBounds(w, h, c) :: !Look(s, c).isRevealed && !Look(s, c).isFlagged
    ensures BestGuess(s, w, h).Some? && BestGuess(s, w, h).value.at == Coord(0, 0)
  {
    var corner := Coord(0, 0);
    BestGuessSpec(s, w, h);
    assert Candidate(s, w, h, corner);
    assert !IsCentre(s, w, h, corner) by {
      assert Near(Coord(-1, -1), corner);
    }
    assert Rank(EntryOf(s, w, h, corner)) == 2;
    var e := BestGuess(s, w, h).value;
    assert !Informed(s, w, h, e.at);
    assert Rank(e) >= 2;
    assert !Earlier(corner, e.at);
  }

  /**
   * The move evidently intended for the first move of a replay (the failure
   * memory of ai.js:14 exists to be avoided on the same minefield): while no
   * cell is revealed, the first-move choice of ai.js:130-252, which steers
   * clear of recorded failures; once a cell is open, `Decide`.
   */
  ghost function ReplayMove(s: Snapshot, w: nat, h: nat, failed: seq<Coord>, shuffled: seq<Coord>): Move {
    if forall c | InBounds(w, h, c) :: !Look(s, c).isRevealed then FirstMove(FirstPick(shuffled, w, h))
    else Decide(s, w, h)
  }

  /**
   * On a replayed board before its first move, the intended move is a first
   * move on the board that avoids every recorded failure whenever the pool of
   * starting positions is non-empty, in particular whenever the top-right
   * corner is not itself a recorded failure.
   */
  lemma ReplayMoveAvoids(s: Snapshot, w: nat, h: nat, failed: seq<Coord>, shuffled: seq<Coord>)
    requires 0 < w && 0 < h
    requires forall c | InBounds(w, h, c) :: !Look(s, c).isRevealed && !Look(s, c).isFlagged
    requires multiset(shuffled) == multiset(Starters(s, w, h, failed))
    ensures var m := ReplayMove(s, w, h, failed, shuffled);
      m.FirstMove? && InBounds(w, h, m.at) &&
      (|Pool(s, w, h, failed)| > 0 ==> m.at !in failed && !IsCentre(s, w, h, m.at)) &&
      (|failed| > 0 && Coord(w - 1, 0) !in failed ==> m.at !in failed)
  {
    assert ReplayMove(s, w, h, failed, shuffled) == FirstMove(FirstPick(shuffled, w, h));
    FirstMoveSound(s, w, h, failed, shuffled);
    if |failed| > 0 && Coord(w - 1, 0) !in failed {
      PoolHasTopRight(s, w, h, failed);
    }
  }

  /** The top-right corner is never a 3x3 centre either. */
  lemma PoolHasTopRight(s: Snapshot, w: nat, h: nat, failed: seq<Coord>)
    requires 0 < w && 0 < h && |failed| > 0 && Coord(w - 1, 0) !in failed
    ensures Coord(w - 1, 0) in Pool(s, w, h, failed)
  {
    var corner := Coord(w - 1, 0);
    assert !IsCentre(s, w, h, corner) by {
      assert Near(Coord(w, -1), corner) && !InBounds(w, h, Coord(w, -1));
    }
    assert Eligible(s, w, h, failed, corner);
    var all := Corners(w, h) + CentreArea(w, h) + TopBottom(w, h) + LeftRight(w, h);
    assert all[1] == corner;
  }

  // ----- the first move (makeFirstMove) -----

  /** `(Math.floor(width / 2), Math.floor(height / 2))` (ai.js:134-135). */
  function Mid(w: nat, h: nat): Coord {
    Coord(w / 2, h / 2)
  }

  /** ai.js:138-151: a cell of the 3x3 around the middle is already revealed. */
  ghost predicate RevealedNearMid(s: Snapshot, w: nat, h: nat) {
    exists n | Near(n, Mid(w, h)) :: InBounds(w, h, n) && Look(s, n).isRevealed
  }

  /** ai.js:161-166 */
  function Corners(w: int, h: int): seq<Coord> {
    [Coord(0, 0), Coord(w - 1, 0), Coord(0, h - 1), Coord(w - 1, h - 1)]
  }

  /**
   * The on-board cells of the 5x5 block around `m`, in the order of the two
   * loops of ai.js:170-177: every offset row above `dy`, then the offsets
   * left of `dx` in row `dy`. `AreaUpto(m, w, h, 3, -2)` is the whole block.
   */
  function AreaUpto(m: Coord, w: int, h: int, dy: int, dx: int): seq<Coord>
    requires -2 <= dy <= 3 && -2 <= dx <= 3
    decreases dy + 2, dx + 2
  {
    if dx > -2 then
      var n := Coord(m.x + (dx - 1), m.y + dy);
      AreaUpto(m, w, h, dy, dx - 1) + if InBounds(w, h, n) then [n] else []
    else if dy > -2 then AreaUpto(m, w, h, dy - 1, 3)
    else []
  }

  /** ai.js:169-178: the on-board cells of the 5x5 block around the middle. */
  function CentreArea(w: nat, h: nat): seq<Coord> {
    AreaUpto(Mid(w, h), w, h, 3, -2)
  }

  /**
   * The cells the 5x5 loop has kept before the offset (`dx`, `dy`): on the
   * board, within two columns of `m`, and in an earlier row or earlier in row `dy`.
   */
  ghost predicate Visited(m: Coord, w: int, h: int, dy: int, dx: int, p: Coord) {
    InBounds(w, h, p) && -2 <= p.y - m.y && -2 <= p.x - m.x <= 2 &&
    (p.y - m.y < dy || (p.y - m.y == dy && p.x - m.x < dx))
  }

  /** The offset just passed in row `dy` is the one cell that one step along the row adds to `Visited`. */
  lemma VisitedStep(m: Coord, w: int, h: int, dy: int, dx: int, p: Coord)
    requires -2 <= dy <= 3 && -2 < dx <= 3
    ensures Visited(m, w, h, dy, dx, p) <==>
      Visited(m, w, h, dy, dx - 1, p) || (InBounds(w, h, p) && p == Coord(m.x + (dx - 1), m.y + dy))
  {
    assert p == Coord(m.x + (dx - 1), m.y + dy) <==> p.x - m.x == dx - 1 && p.y - m.y == dy;
  }

  /** One step along a row that adds the on-board cell at the offset just passed. */
  lemma AreaUptoIn(m: Coord, w: int, h: int, dy: int, dx: int)
    requires -2 <= dy <= 3 && -2 < dx <= 3 && InBounds(w, h, Coord(m.x + (dx - 1), m.y + dy))
    ensures AreaUpto(m, w, h, dy, dx) == AreaUpto(m, w, h, dy, dx - 1) + [Coord(m.x + (dx - 1), m.y + dy)]
  {
  }

  /** The start of a row holds what the end of the row before it holds. */
  lemma AreaUptoRow(m: Coord, w: int, h: int, dy: int)
    requires -2 <= dy < 3
    ensures AreaUpto(m, w, h, dy + 1, -2) == AreaUpto(m, w, h, dy, 3)
  {
  }

  /** One step along a row past an off-board offset adds nothing. */
  lemma AreaUptoOut(m: Coord, w: int, h: int, dy: int, dx: int)
    requires -2 <= dy <= 3 && -2 < dx <= 3 && !InBounds(w, h, Coord(m.x + (dx - 1), m.y + dy))
    ensures AreaUpto(m, w, h, dy, dx) == AreaUpto(m, w, h, dy, dx - 1)
  {
  }

  /** What `AreaUpto` holds: the on-board cells of the block visited so far. */
  lemma {:induction false} AreaUptoCells(m: Coord, w: int, h: int, dy: int, dx: int, p: Coord)
    requires -2 <= dy <= 3 && -2 <= dx <= 3
    ensures p in AreaUpto(m, w, h, dy, dx) <==> Visited(m, w, h, dy, dx, p)
    decreases dy + 2, dx + 2
  {
    if dx > -2 {
      AreaUptoCells(m, w, h, dy, dx - 1, p);
      VisitedStep(m, w, h, dy, dx, p);
      var n := Coord(m.x + (dx - 1), m.y + dy);
      if InBounds(w, h, n) {
        AreaUptoIn(m, w, h, dy, dx);
        assert p in AreaUpto(m, w, h, dy, dx - 1) + [n] <==> p in AreaUpto(m, w, h, dy, dx - 1) || p == n;
      } else {
        AreaUptoOut(m, w, h, dy, dx);
      }
    } else if dy > -2 {
      AreaUptoCells(m, w, h, dy - 1, 3, p);
      assert Visited(m, w, h, dy - 1, 3, p) == Visited(m, w, h, dy, -2, p);
    }
  }

  /** The centre area is exactly the on-board cells within two steps of the middle in each direction. */
  lemma CentreAreaCells(w: nat, h: nat, p: Coord)
    ensures p in CentreArea(w, h) <==>
      InBounds(w, h, p) && -2 <= p.x - Mid(w, h).x <= 2 && -2 <= p.y - Mid(w, h).y <= 2
  {
    AreaUptoCells(Mid(w, h), w, h, 3, -2, p);
  }

  /** ai.js:183-186: for each column, its top cell, then its bottom cell. */
  function TopBottom(w: nat, h: int): (r: seq<Coord>)
    ensures |r| == 2 * w
  {
    seq(2 * w, i => Coord(i / 2, if i % 2 == 0 then 0 else h - 1))
  }

  /** ai.js:188-191: for each row strictly between the first and the last, its left cell, then its right cell. */
  function LeftRight(w: int, h: int): (r: seq<Coord>)
    ensures |r| == if h > 2 then 2 * (h - 2) else 0
  {
    seq(if h > 2 then 2 * (h - 2) else 0, i => Coord(if i % 2 == 0 then 0 else w - 1, i / 2 + 1))
  }

  /** ai.js:217-226: the eight cells around the middle, in the source's order. */
  function Ring(m: Coord): (r: seq<Coord>)
    ensures forall n {:trigger n in r} :: n in r <==> Adjacent(n, m)
  {
    [Coord(m.x - 1, m.y - 1), Coord(m.x + 1, m.y - 1), Coord(m.x - 1, m.y + 1), Coord(m.x + 1, m.y + 1),
     Coord(m.x, m.y - 1), Coord(m.x, m.y + 1), Coord(m.x - 1, m.y), Coord(m.x + 1, m.y)]
  }

  /**
   * ai.js:157-211: with a failure on record, the corners, the middle 5x5 and the
   * edges, kept when on the board, not a failure and not a 3x3 centre; with
   * none, nothing.
   */
  ghost function Pool(s: Snapshot, w: nat, h: nat, failed: seq<Coord>): (r: seq<Coord>)
    ensures forall p | p in r :: InBounds(w, h, p) && p !in failed && !IsCentre(s, w, h, p)
  {
    if |failed| > 0 then
      Filter(Corners(w, h) + CentreArea(w, h) + TopBottom(w, h) + LeftRight(w, h), p => Eligible(s, w, h, failed, p))
    else []
  }

  /** The filter of ai.js:197-210: on the board, not a recorded failure, not a 3x3 centre. */
  ghost predicate Eligible(s: Snapshot, w: int, h: int, failed: seq<Coord>, p: Coord) {
    InBounds(w, h, p) && p !in failed && !IsCentre(s, w, h, p)
  }

  /** ai.js:154-231: the starting positions before shuffling. */
  ghost function Starters(s: Snapshot, w: nat, h: nat, failed: seq<Coord>): seq<Coord> {
    var pool := Pool(s, w, h, failed);
    if |pool| > 0 then pool
    else if !RevealedNearMid(s, w, h) then Ring(Mid(w, h))
    else [Mid(w, h)]
  }

  /** ai.js:240-252: the first on-board position of the shuffled list, else the middle. */
  function FirstPick(shuffled: seq<Coord>, w: int, h: int): (p: Coord)
    requires 0 <= w && 0 <= h
    ensures p in shuffled || p == Mid(w, h)
  {
    match FirstWhere(shuffled, q => InBounds(w, h, q))
    case Some(q) => q
    case None => Mid(w, h)
  }

  /** The pick from a shuffle of `list` is on the board: one of `list`, or the middle when none of `list` is. */
  lemma PickFrom(shuffled: seq<Coord>, w: nat, h: nat, list: seq<Coord>)
    requires 0 < w && 0 < h && multiset(shuffled) == multiset(list)
    ensures InBounds(w, h, FirstPick(shuffled, w, h))
    ensures FirstPick(shuffled, w, h) in list ||
      (FirstPick(shuffled, w, h) == Mid(w, h) && forall q | q in list :: !InBounds(w, h, q))
  {
    var p := FirstPick(shuffled, w, h);
    if p in shuffled {
      assert p in multiset(list);
    }
    forall q | q in list
      ensures q in shuffled
    {
      assert q in multiset(shuffled);
    }
  }

  /**
   * Whatever the shuffle, the first click lands on the board; with a failure
   * on record and a non-empty pool it avoids every recorded failure and every
   * 3x3 centre; otherwise it is the middle or a cell around it.
   */
  lemma FirstMoveSound(s: Snapshot, w: nat, h: nat, failed: seq<Coord>, shuffled: seq<Coord>)
    requires 0 < w && 0 < h
    requires multiset(shuffled) == multiset(Starters(s, w, h, failed))
    ensures InBounds(w, h, FirstPick(shuffled, w, h))
    ensures |Pool(s, w, h, failed)| > 0 ==>
      var p := FirstPick(shuffled, w, h);
      p in Pool(s, w, h, failed) && p !in failed && !IsCentre(s, w, h, p)
    ensures |Pool(s, w, h, failed)| == 0 ==>
      var p := FirstPick(shuffled, w, h);
      p == Mid(w, h) || (Adjacent(p, Mid(w, h)) && !RevealedNearMid(s, w, h))
  {
    var pool := Pool(s, w, h, failed);
    PickFrom(shuffled, w, h, Starters(s, w, h, failed));
    if |pool| > 0 {
      assert pool[0] in pool;
    }
  }

  /** A corner is never a 3x3 centre, so any failure list that leaves the top-left corner out yields a non-empty pool. */
  lemma PoolHasCorner(s: Snapshot, w: nat, h: nat, failed: seq<Coord>)
    requires 0 < w && 0 < h && |failed| > 0 && Coord(0, 0) !in failed
    ensures Coord(0, 0) in Pool(s, w, h, failed)
  {
    assert !Near(Coord(-1, -1), Coord(0, 0)) || !InBounds(w, h, Coord(-1, -1));
    assert Near(Coord(-1, -1), Coord(0, 0));
  }
}
