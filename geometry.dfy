/**
 * Positions on a W x H minesweeper grid: the 8-neighbourhood that every scan of
 * the engine and the solver walks (dy outer, dx inner, the centre skipped), and
 * the row-major order of the nested `for y … for x …` loops.
 */
module Geometry {

  datatype Option<T> = None | Some(value: T)

  /** A grid position: column `x`, row `y` (the source indexes `board[y][x]`). */
  datatype Coord = Coord(x: int, y: int)

  predicate InBounds(w: int, h: int, c: Coord) {
    0 <= c.x < w && 0 <= c.y < h
  }

  /** `a` lies in the 3x3 block centred on `b` (Chebyshev distance at most 1). */
  predicate Near(a: Coord, b: Coord) {
    -1 <= a.x - b.x <= 1 && -1 <= a.y - b.y <= 1
  }

  /** `a` is one of the eight neighbours of `b`. */
  predicate Adjacent(a: Coord, b: Coord) {
    a != b && Near(a, b)
  }

  /** Row-major order: the order in which the nested row/column loops visit cells. */
  predicate Earlier(a: Coord, b: Coord) {
    a.y < b.y || (a.y == b.y && a.x < b.x)
  }

  predicate Distinct<T(==)>(s: seq<T>) {
    forall i, j | 0 <= i < j < |s| :: s[i] != s[j]
  }

  /** The elements of `s` that satisfy `p`, in order (JavaScript's `Array.prototype.filter`). */
  function Filter<T(==,!new)>(s: seq<T>, p: T -> bool): (r: seq<T>)
    ensures forall a {:trigger a in r} :: a in r <==> a in s && p(a)
    ensures |r| <= |s|
    ensures Distinct(s) ==> Distinct(r)
  {
    if s == [] then []
    else
      var rest := Filter(s[1..], p);
      assert Distinct(s) ==> s[0] !in rest;
      if p(s[0]) then [s[0]] + rest else rest
  }

  lemma {:induction false} FilterAppend<T(!new)>(s: seq<T>, a: T, p: T -> bool)
    ensures Filter(s + [a], p) == Filter(s, p) + (if p(a) then [a] else [])
    decreases |s|
  {
    if s == [] {
      assert [a][1..] == [];
    } else {
      assert (s + [a])[1..] == s[1..] + [a];
      FilterAppend(s[1..], a, p);
    }
  }

  /** The head of a filtered list is the first element that satisfies the filter. */
  lemma {:induction false} FilterFirst<T(!new)>(s: seq<T>, p: T -> bool)
    ensures |Filter(s, p)| > 0 ==> FirstWhere(s, p) == Some(Filter(s, p)[0])
    ensures |Filter(s, p)| == 0 ==> FirstWhere(s, p) == None
  {
    if s != [] {
      FilterFirst(s[1..], p);
    }
  }

  /** Every position of a `w` x `h` grid. */
  function Positions(w: int, h: int): (r: set<Coord>)
    ensures forall c :: c in r <==> InBounds(w, h, c)
  {
    set y, x | 0 <= y < h && 0 <= x < w :: Coord(x, y)
  }

  /** First element of `s` that satisfies `p` (the `for … of` loops that return on the first hit). */
  function FirstWhere<T(==,!new)>(s: seq<T>, p: T -> bool): (r: Option<T>)
    ensures r.Some? ==> r.value in s && p(r.value)
    ensures r.None? <==> forall a :: a in s ==> !p(a)
  {
    if s == [] then None
    else if p(s[0]) then Some(s[0])
    else FirstWhere(s[1..], p)
  }

  /** The first element satisfying `p` is the one at `i` when `p` holds there and nowhere before. */
  lemma {:induction false} FirstWhereAt<T(!new)>(s: seq<T>, p: T -> bool, i: int)
    requires 0 <= i < |s| && p(s[i]) && forall j | 0 <= j < i :: !p(s[j])
    ensures FirstWhere(s, p) == Some(s[i])
  {
    if i > 0 {
      FirstWhereAt(s[1..], p, i - 1);
    }
  }

  /** The eight offsets from `c` in the order of the nested `dy`/`dx` loops, the centre skipped. */
  function Offsets(c: Coord): seq<Coord> {
    [Coord(c.x - 1, c.y - 1), Coord(c.x, c.y - 1), Coord(c.x + 1, c.y - 1),
     Coord(c.x - 1, c.y), Coord(c.x + 1, c.y),
     Coord(c.x - 1, c.y + 1), Coord(c.x, c.y + 1), Coord(c.x + 1, c.y + 1)]
  }

  /** The eight neighbour positions of `c`: exactly its adjacent cells, each once. */
  function Around(c: Coord): (r: seq<Coord>)
    ensures forall n {:trigger n in r} :: n in r <==> Adjacent(n, c)
    ensures Distinct(r)
  {
    Offsets(c)
  }

  /**
   * The in-bounds neighbours of `c` (ai.js getAdjacentCells; the same
   * bounds test guards every neighbour loop of game.js and main.js).
   */
  function Neighbours(w: int, h: int, c: Coord): (ns: seq<Coord>)
    ensures forall n {:trigger n in ns} :: n in ns <==> InBounds(w, h, n) && Adjacent(n, c)
    ensures Distinct(ns)
    ensures |ns| <= 8
  {
    Filter(Around(c), n => InBounds(w, h, n))
  }

  /**
   * How many of the first `k` entries of `Around(c)` are in bounds and in
   * `mines`: the neighbour loop of the source, stopped after `k` offsets.
   */
  function CountAround(mines: set<Coord>, w: int, h: int, c: Coord, k: nat): (r: nat)
    requires k <= 8
    ensures r <= k
  {
    if k == 0 then 0
    else
      var n := Around(c)[k - 1];
      CountAround(mines, w, h, c, k - 1) + (if InBounds(w, h, n) && n in mines then 1 else 0)
  }

  /** The number of positions of `mines` among the in-bounds neighbours of `c`. */
  function MinesAround(mines: set<Coord>, w: int, h: int, c: Coord): nat
  {
    CountAround(mines, w, h, c, 8)
  }

  lemma {:induction false} CountAroundZero(mines: set<Coord>, w: int, h: int, c: Coord, k: nat)
    requires k <= 8
    ensures CountAround(mines, w, h, c, k) == 0 <==>
      forall j | 0 <= j < k :: !(InBounds(w, h, Around(c)[j]) && Around(c)[j] in mines)
  {
    if k > 0 {
      CountAroundZero(mines, w, h, c, k - 1);
    }
  }

  /** No mined neighbour is counted exactly when no in-bounds neighbour is in `mines`. */
  lemma MinesAroundZero(mines: set<Coord>, w: int, h: int, c: Coord)
    ensures MinesAround(mines, w, h, c) == 0 <==> forall n :: n in Neighbours(w, h, c) ==> n !in mines
  {
    CountAroundZero(mines, w, h, c, 8);
    var around := Around(c);
    assert forall n :: n in Neighbours(w, h, c) <==> exists j | 0 <= j < 8 :: around[j] == n && InBounds(w, h, n);
  }

  /** The positions a row-major scan of a `w`-wide grid visits before reaching column `x` of row `y`. */
  function Before(w: int, y: int, x: int): (r: seq<Coord>)
    requires 0 <= y && 0 <= x <= w
    decreases y, x
  {
    if x > 0 then Before(w, y, x - 1) + [Coord(x - 1, y)]
    else if y > 0 then Before(w, y - 1, w)
    else []
  }

  /** Every position of a `w` x `h` grid, in row-major order. */
  function AllCoords(w: int, h: int): seq<Coord>
    requires 0 <= w && 0 <= h
  {
    Before(w, h, 0)
  }

  predicate SortedRowMajor(s: seq<Coord>) {
    forall i, j | 0 <= i < j < |s| :: Earlier(s[i], s[j])
  }

  lemma {:induction false} BeforeShape(w: int, y: int, x: int)
    requires 0 <= y && 0 <= x <= w
    ensures forall c :: c in Before(w, y, x) <==>
      (0 <= c.y < y && 0 <= c.x < w) || (c.y == y && 0 <= c.x < x)
    ensures SortedRowMajor(Before(w, y, x))
    decreases y, x
  {
    if x > 0 {
      BeforeShape(w, y, x - 1);
    } else if y > 0 {
      BeforeShape(w, y - 1, w);
    }
  }

  lemma AllCoordsShape(w: int, h: int)
    requires 0 <= w && 0 <= h
    ensures forall c :: c in AllCoords(w, h) <==> InBounds(w, h, c)
    ensures SortedRowMajor(AllCoords(w, h))
  {
    BeforeShape(w, h, 0);
  }

  lemma {:induction false} BeforeLength(w: int, y: int, x: int)
    requires 0 <= y && 0 <= x <= w
    ensures |Before(w, y, x)| == y * w + x
    decreases y, x
  {
    if x > 0 {
      BeforeLength(w, y, x - 1);
    } else if y > 0 {
      BeforeLength(w, y - 1, w);
      assert (y - 1) * w + w == y * w;
    }
  }

  /** The positions of a `w` x `h` grid, each listed once: `w * h` of them. */
  lemma AllCoordsCount(w: int, h: int)
    requires 0 <= w && 0 <= h
    ensures Distinct(AllCoords(w, h))
    ensures |set c | c in AllCoords(w, h)| == w * h
  {
    AllCoordsShape(w, h);
    BeforeLength(w, h, 0);
    DistinctCard(AllCoords(w, h));
  }

  /** A `w` x `h` grid has `w * h` positions. */
  lemma PositionsCount(w: int, h: int)
    requires 0 <= w && 0 <= h
    ensures |Positions(w, h)| == w * h
  {
    AllCoordsCount(w, h);
    AllCoordsShape(w, h);
    assert (set c | c in AllCoords(w, h)) == Positions(w, h);
  }

  /** Filtering keeps a row-major list sorted. */
  lemma {:induction false} FilterSorted(s: seq<Coord>, p: Coord -> bool)
    requires SortedRowMajor(s)
    ensures SortedRowMajor(Filter(s, p))
  {
    if s != [] {
      var tail := s[1..];
      FilterSorted(tail, p);
      var rest := Filter(tail, p);
      if p(s[0]) {
        forall j | 0 <= j < |rest|
          ensures Earlier(s[0], rest[j])
        {
          assert rest[j] in rest;
          var k :| 0 <= k < |tail| && tail[k] == rest[j];
          assert s[k + 1] == rest[j];
        }
        var r := [s[0]] + rest;
        assert forall i | 1 <= i < |r| :: r[i] == rest[i - 1];
      }
    }
  }

  /**
   * In a row-major sorted list, the first element satisfying `p` is the one
   * that satisfies `p` and has no earlier element satisfying `p`.
   */
  lemma {:induction false} FirstWhereSorted(s: seq<Coord>, p: Coord -> bool, r: Coord)
    requires SortedRowMajor(s)
    requires r in s && p(r)
    requires forall c :: c in s && Earlier(c, r) ==> !p(c)
    ensures FirstWhere(s, p) == Some(r)
  {
    if s[0] != r {
      assert r in s[1..];
      assert Earlier(s[0], r) by {
        var k :| 0 <= k < |s| && s[k] == r;
      }
      FirstWhereSorted(s[1..], p, r);
    }
  }

  /** A list with no repeated element has as many elements as the set of its elements. */
  lemma {:induction false} DistinctCard<T>(s: seq<T>)
    requires Distinct(s)
    ensures |set a | a in s| == |s|
  {
    if s != [] {
      DistinctCard(s[1..]);
      assert (set a | a in s) == {s[0]} + (set a | a in s[1..]);
    }
  }

  /** A subset is no larger than its superset. */
  lemma {:induction false} SubsetCard<T>(a: set<T>, b: set<T>)
    requires a <= b
    ensures |a| <= |b|
    decreases |b|
  {
    if a != {} {
      var e :| e in a;
      SubsetCard(a - {e}, b - {e});
    }
  }

  /** A subset as large as its superset is all of it. */
  lemma SubsetFull<T>(a: set<T>, b: set<T>)
    requires a <= b && |a| == |b|
    ensures a == b
  {
    assert b == a + (b - a);
  }

  /** The first `k` neighbour offsets of `c` that land in bounds on a position of `mines`. */
  ghost function AroundHits(mines: set<Coord>, w: int, h: int, c: Coord, k: nat): set<Coord>
    requires k <= 8
  {
    set j | 0 <= j < k && InBounds(w, h, Around(c)[j]) && Around(c)[j] in mines :: Around(c)[j]
  }

  lemma {:induction false} CountAroundHits(mines: set<Coord>, w: int, h: int, c: Coord, k: nat)
    requires k <= 8
    ensures CountAround(mines, w, h, c, k) == |AroundHits(mines, w, h, c, k)|
  {
    if k > 0 {
      CountAroundHits(mines, w, h, c, k - 1);
      var a := Around(c);
      if InBounds(w, h, a[k - 1]) && a[k - 1] in mines {
        assert AroundHits(mines, w, h, c, k) == AroundHits(mines, w, h, c, k - 1) + {a[k - 1]};
        assert a[k - 1] !in AroundHits(mines, w, h, c, k - 1);
      } else {
        assert AroundHits(mines, w, h, c, k) == AroundHits(mines, w, h, c, k - 1);
      }
    }
  }

  /** The neighbour count is the size of the set of mined in-bounds neighbours. */
  lemma MinesAroundCard(mines: set<Coord>, w: int, h: int, c: Coord)
    ensures MinesAround(mines, w, h, c) == |set n | n in Neighbours(w, h, c) && n in mines|
  {
    CountAroundHits(mines, w, h, c, 8);
    assert AroundHits(mines, w, h, c, 8) == set n | n in Neighbours(w, h, c) && n in mines;
  }
}
