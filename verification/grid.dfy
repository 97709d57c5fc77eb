/** Board geometry shared by the game, the scanner and the strategies: a board
    is a square grid of ints (0 empty, 1 and 2 the players), indexed
    `board[row][column]`. The row-major sweep here is the double
    `for i ... for j ...` loop that every component of the engine uses. */
module Grid {

  type Grid = seq<seq<int>>

  /** A `(row, column)` pair; coordinates may lie off the board. */
  type Point = (int, int)

  /** Every row has as many cells as there are rows. */
  predicate IsSquare(g: Grid) {
    forall i :: 0 <= i < |g| ==> |g[i]| == |g|
  }

  predicate InGrid(g: Grid, p: Point) {
    0 <= p.0 < |g| && 0 <= p.1 < |g|
  }

  function At(g: Grid, p: Point): int
    requires IsSquare(g) && InGrid(g, p)
  {
    g[p.0][p.1]
  }

  /** `board[x][y] = v` on a copy of the board. */
  function Set(g: Grid, p: Point, v: int): (r: Grid)
    requires IsSquare(g) && InGrid(g, p)
    ensures IsSquare(r) && |r| == |g|
    ensures At(r, p) == v
    ensures forall q :: InGrid(g, q) && q != p ==> At(r, q) == At(g, q)
  {
    g[p.0 := g[p.0][p.1 := v]]
  }

  /** `Set` is characterised by its cells: a grid of the same shape that holds
      `v` at `p` and agrees with `g` everywhere else is `Set(g, p, v)`. */
  lemma SetUnique(h: Grid, g: Grid, p: Point, v: int)
    requires IsSquare(g) && IsSquare(h) && |h| == |g| && InGrid(g, p)
    requires At(h, p) == v && forall q :: InGrid(g, q) && q != p ==> At(h, q) == At(g, q)
    ensures h == Set(g, p, v)
  {
    var s := Set(g, p, v);
    forall i | 0 <= i < |g|
      ensures h[i] == s[i]
    {
      forall j | 0 <= j < |g|
        ensures h[i][j] == s[i][j]
      {
        assert At(h, (i, j)) == At(s, (i, j));
      }
    }
  }

  /** `[[0 for _ in range(n)] for _ in range(n)]` */
  function EmptyGrid(n: nat): (g: Grid)
    ensures IsSquare(g) && |g| == n
    ensures forall q :: InGrid(g, q) ==> At(g, q) == 0
  {
    seq(n, _ => seq(n, _ => 0))
  }

  /** No cell is 0. */
  predicate Full(g: Grid)
    requires IsSquare(g)
  {
    forall i, j :: 0 <= i < |g| && 0 <= j < |g| ==> g[i][j] != 0
  }

  /** The cells holding a stone. */
  function Occupied(g: Grid): set<Point>
    requires IsSquare(g)
  {
    set i, j | 0 <= i < |g| && 0 <= j < |g| && g[i][j] != 0 :: (i, j)
  }

  /** Placing a stone on an empty cell adds exactly that cell to the occupied set. */
  lemma OccupiedGrows(g: Grid, p: Point, v: int)
    requires IsSquare(g) && InGrid(g, p) && At(g, p) == 0 && v != 0
    ensures Occupied(Set(g, p, v)) == Occupied(g) + {p}
    ensures |Occupied(Set(g, p, v))| == |Occupied(g)| + 1
  {
    var r := Set(g, p, v);
    forall q | q in Occupied(r)
      ensures q in Occupied(g) + {p}
    {
      if q != p {
        assert At(r, q) == At(g, q);
      }
    }
    forall q | q in Occupied(g) + {p}
      ensures q in Occupied(r)
    {
      if q != p {
        assert At(r, q) == At(g, q);
      }
    }
    assert p !in Occupied(g);
  }

  lemma EmptyGridUnoccupied(n: nat)
    ensures Occupied(EmptyGrid(n)) == {}
  {
  }

  /** The point `k` steps from `p` along direction `d`. */
  function Offset(p: Point, d: Point, k: int): Point {
    (p.0 + k * d.0, p.1 + k * d.1)
  }

  /** The `n` cells starting at `s` and stepping by `d` are all on the board
      and all hold `owner`. */
  predicate Window(g: Grid, owner: int, s: Point, d: Point, n: int)
    requires IsSquare(g)
    decreases n
  {
    n <= 0 || (InGrid(g, s) && At(g, s) == owner && Window(g, owner, Offset(s, d, 1), d, n - 1))
  }

  /** Reference reading of Window: every one of the `n` cells, taken one by one. */
  ghost predicate WindowCells(g: Grid, owner: int, s: Point, d: Point, n: int)
    requires IsSquare(g)
  {
    forall k :: 0 <= k < n ==> InGrid(g, Offset(s, d, k)) && At(g, Offset(s, d, k)) == owner
  }

  lemma {:induction false} WindowMeansCells(g: Grid, owner: int, s: Point, d: Point, n: int)
    requires IsSquare(g)
    ensures Window(g, owner, s, d, n) <==> WindowCells(g, owner, s, d, n)
    decreases n
  {
    if n > 0 {
      var s' := Offset(s, d, 1);
      WindowMeansCells(g, owner, s', d, n - 1);
      forall k | 0 <= k < n - 1
        ensures Offset(s', d, k) == Offset(s, d, k + 1)
      {
      }
      assert Offset(s, d, 0) == s;
      if WindowCells(g, owner, s, d, n) {
        forall k | 0 <= k < n - 1
          ensures InGrid(g, Offset(s', d, k)) && At(g, Offset(s', d, k)) == owner
        {
          assert Offset(s', d, k) == Offset(s, d, k + 1);
        }
      }
      if Window(g, owner, s, d, n) {
        forall k | 0 <= k < n
          ensures InGrid(g, Offset(s, d, k)) && At(g, Offset(s, d, k)) == owner
        {
          if k > 0 {
            assert Offset(s, d, k) == Offset(s', d, k - 1);
          }
        }
      }
    }
  }

  /** One more owned cell past the end lengthens a window by one. */
  lemma {:induction false} WindowExtend(g: Grid, owner: int, s: Point, d: Point, n: nat)
    requires IsSquare(g) && Window(g, owner, s, d, n)
    requires InGrid(g, Offset(s, d, n)) && At(g, Offset(s, d, n)) == owner
    ensures Window(g, owner, s, d, n + 1)
    decreases n
  {
    if n > 0 {
      var s' := Offset(s, d, 1);
      assert Offset(s', d, n - 1) == Offset(s, d, n);
      WindowExtend(g, owner, s', d, n - 1);
    }
  }

  /** Writing `owner` on a cell keeps every window of `owner` intact. */
  lemma {:induction false} WindowSurvivesSet(g: Grid, owner: int, s: Point, d: Point, n: int, p: Point)
    requires IsSquare(g) && InGrid(g, p) && Window(g, owner, s, d, n)
    ensures Window(Set(g, p, owner), owner, s, d, n)
    decreases n
  {
    if n > 0 {
      WindowSurvivesSet(g, owner, Offset(s, d, 1), d, n - 1, p);
    }
  }

  /** Row-major order on points: earlier row first, then earlier column. */
  predicate Before(a: Point, b: Point) {
    a.0 < b.0 || (a.0 == b.0 && a.1 < b.1)
  }

  predicate RowMajorSorted(ps: seq<Point>) {
    forall x, y :: 0 <= x < y < |ps| ==> Before(ps[x], ps[y])
  }

  /** What a sweep keeps: an empty cell, or the start of an owned line. */
  datatype Probe = Vacant | Line(owner: int, step: Point, len: int)

  predicate Hit(g: Grid, probe: Probe, p: Point)
    requires IsSquare(g)
  {
    match probe
    case Vacant => InGrid(g, p) && At(g, p) == 0
    case Line(owner, d, n) => Window(g, owner, p, d, n)
  }

  /** `for j in range(j0, cols): if hit (i, j): collect` */
  function SweepRow(g: Grid, probe: Probe, i: int, j: int, cols: int): seq<Point>
    requires IsSquare(g)
    decreases cols - j
  {
    if j >= cols then []
    else (if Hit(g, probe, (i, j)) then [(i, j)] else []) + SweepRow(g, probe, i, j + 1, cols)
  }

  /** `for i in range(i0, rows): for j in range(cols): if hit (i, j): collect` */
  function SweepFrom(g: Grid, probe: Probe, i: int, rows: int, cols: int): seq<Point>
    requires IsSquare(g)
    decreases rows - i
  {
    if i >= rows then []
    else SweepRow(g, probe, i, 0, cols) + SweepFrom(g, probe, i + 1, rows, cols)
  }

  function Sweep(g: Grid, probe: Probe, rows: int, cols: int): seq<Point>
    requires IsSquare(g)
  {
    SweepFrom(g, probe, 0, rows, cols)
  }

  lemma {:induction false} SweepRowExact(g: Grid, probe: Probe, i: int, j: int, cols: int)
    requires IsSquare(g)
    ensures forall p :: p in SweepRow(g, probe, i, j, cols) <==> p.0 == i && j <= p.1 < cols && Hit(g, probe, p)
    ensures forall x :: 0 <= x < |SweepRow(g, probe, i, j, cols)| ==> SweepRow(g, probe, i, j, cols)[x].0 == i
    ensures RowMajorSorted(SweepRow(g, probe, i, j, cols))
    decreases cols - j
  {
    if j < cols {
      SweepRowExact(g, probe, i, j + 1, cols);
      var rest := SweepRow(g, probe, i, j + 1, cols);
      var head: seq<Point> := if Hit(g, probe, (i, j)) then [(i, j)] else [];
      assert SweepRow(g, probe, i, j, cols) == head + rest;
      forall x | 0 <= x < |rest|
        ensures rest[x].1 > j
      {
        assert rest[x] in rest;
      }
    }
  }

  lemma {:induction false} SweepFromExact(g: Grid, probe: Probe, i: int, rows: int, cols: int)
    requires IsSquare(g)
    ensures forall p :: p in SweepFrom(g, probe, i, rows, cols) <==> i <= p.0 < rows && 0 <= p.1 < cols && Hit(g, probe, p)
    ensures forall x :: 0 <= x < |SweepFrom(g, probe, i, rows, cols)| ==> SweepFrom(g, probe, i, rows, cols)[x].0 >= i
    ensures RowMajorSorted(SweepFrom(g, probe, i, rows, cols))
    decreases rows - i
  {
    if i < rows {
      SweepRowExact(g, probe, i, 0, cols);
      SweepFromExact(g, probe, i + 1, rows, cols);
      var row := SweepRow(g, probe, i, 0, cols);
      var rest := SweepFrom(g, probe, i + 1, rows, cols);
      assert SweepFrom(g, probe, i, rows, cols) == row + rest;
      forall x, y | 0 <= x < y < |row + rest|
        ensures Before((row + rest)[x], (row + rest)[y])
      {
        if y >= |row| && x < |row| {
          assert (row + rest)[x] == row[x];
          assert (row + rest)[y] == rest[y - |row|];
        }
      }
    }
  }

  /** A sweep over `[0, rows) x [0, cols)` yields exactly the hit cells of that
      rectangle, each once, in row-major order. */
  lemma SweepExact(g: Grid, probe: Probe, rows: int, cols: int)
    requires IsSquare(g)
    ensures forall p :: p in Sweep(g, probe, rows, cols) <==> 0 <= p.0 < rows && 0 <= p.1 < cols && Hit(g, probe, p)
    ensures RowMajorSorted(Sweep(g, probe, rows, cols))
  {
    SweepFromExact(g, probe, 0, rows, cols);
  }
}
