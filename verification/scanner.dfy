/** `GoBangGame.check_winner` (gobang.py): slide a window of `n` cells along
    rows, columns and both diagonals, record every window whose cells all hold
    `player`, then give the verdict. */
module Scanner {
  import opened Basics
  import opened Grid

  /** The connection types 1..4 of the source. */
  datatype Orientation = Horizontal | Vertical | DownRight | UpRight

  function Tag(o: Orientation): int {
    match o
    case Horizontal => 1
    case Vertical => 2
    case DownRight => 3
    case UpRight => 4
  }

  /** One step along the orientation: the column grows for rows, the row for
      columns, both for the down-right diagonal; the up-right diagonal goes
      up one row and right one column. */
  function Step(o: Orientation): Point {
    match o
    case Horizontal => (0, 1)
    case Vertical => (1, 0)
    case DownRight => (1, 1)
    case UpRight => (-1, 1)
  }

  /** A reported connection `[con_type, [x1, y1], [x2, y2]]`. */
  datatype Run = Run(orientation: Orientation, start: Point, end: Point)

  /** The range of `i` in the source's outer loop for this orientation. */
  function Rows(o: Orientation, size: int, n: int): int {
    if o == Vertical then size - n + 1 else size
  }

  /** The range of `j` in the source's inner loop for this orientation. */
  function Cols(o: Orientation, size: int, n: int): int {
    if o == Horizontal then size - n + 1 else size
  }

  /** The run recorded for a window starting at `s`: its end is `n - 1` steps on. */
  function RunFrom(o: Orientation, s: Point, n: int): Run {
    Run(o, s, Offset(s, Step(o), n - 1))
  }

  /** The runs recorded for a list of window starts, in the same order. */
  function ToRuns(o: Orientation, n: int, starts: seq<Point>): seq<Run> {
    seq(|starts|, x requires 0 <= x < |starts| => RunFrom(o, starts[x], n))
  }

  /** One of the four double loops of check_winner. The row and column loops
      take slices that always lie on the board; the diagonal loops walk
      neighbours, stop at the edge, and keep the window only if it reached
      `n` cells. Both amount to `Window` over the loop's index range. */
  function ScanOrientation(g: Grid, player: int, n: int, o: Orientation): seq<Run>
    requires IsSquare(g)
  {
    ToRuns(o, n, Sweep(g, Line(player, Step(o), n), Rows(o, |g|, n), Cols(o, |g|, n)))
  }

  /** `con_list`: rows, then columns, then down-right, then up-right diagonals. */
  function Runs(g: Grid, player: int, n: int): seq<Run>
    requires IsSquare(g)
  {
    ScanOrientation(g, player, n, Horizontal) + ScanOrientation(g, player, n, Vertical)
    + ScanOrientation(g, player, n, DownRight) + ScanOrientation(g, player, n, UpRight)
  }

  /** `(winner, con_list)`: winner is `player` when some window was found, 0 (a
      draw) when none was and the board has no empty cell, None otherwise. */
  datatype Outcome = Outcome(winner: Option<int>, runs: seq<Run>)

  function CheckWinner(g: Grid, player: int, n: int): Outcome
    requires IsSquare(g) && n >= 1
  {
    var runs := Runs(g, player, n);
    Outcome(if |runs| > 0 then Some(player) else if Full(g) then Some(0) else None, runs)
  }

  /** The win length the game and the engine use (the default `n=5`). */
  const WIN_LENGTH := 5

  // ---------------------------------------------------------------------
  // Reference meaning of a run and of the verdict

  /** `r` is a window of `n` cells, all on the board and all `player`'s, and
      its end is `n - 1` steps from its start along its orientation. */
  predicate IsRun(g: Grid, player: int, n: int, r: Run)
    requires IsSquare(g)
  {
    r.end == Offset(r.start, Step(r.orientation), n - 1)
    && Window(g, player, r.start, Step(r.orientation), n)
  }

  ghost predicate HasRun(g: Grid, player: int, n: int)
    requires IsSquare(g)
  {
    exists r :: IsRun(g, player, n, r)
  }

  /** A full window lies inside the loop ranges of its orientation. */
  lemma WindowInRange(g: Grid, player: int, o: Orientation, s: Point, n: int)
    requires IsSquare(g) && n >= 1 && Window(g, player, s, Step(o), n)
    ensures 0 <= s.0 < Rows(o, |g|, n) && 0 <= s.1 < Cols(o, |g|, n)
  {
    WindowMeansCells(g, player, s, Step(o), n);
    assert InGrid(g, Offset(s, Step(o), 0));
    assert InGrid(g, Offset(s, Step(o), n - 1));
  }

  lemma ScanOrientationExact(g: Grid, player: int, n: int, o: Orientation, r: Run)
    requires IsSquare(g) && n >= 1
    ensures r in ScanOrientation(g, player, n, o) <==> r.orientation == o && IsRun(g, player, n, r)
  {
    var probe := Line(player, Step(o), n);
    var starts := Sweep(g, probe, Rows(o, |g|, n), Cols(o, |g|, n));
    SweepExact(g, probe, Rows(o, |g|, n), Cols(o, |g|, n));
    var rs := ScanOrientation(g, player, n, o);
    if r in rs {
      var x :| 0 <= x < |rs| && rs[x] == r;
      assert starts[x] in starts;
    }
    if r.orientation == o && IsRun(g, player, n, r) {
      WindowInRange(g, player, o, r.start, n);
      assert r.start in starts;
      var x :| 0 <= x < |starts| && starts[x] == r.start;
      assert rs[x] == r;
    }
  }

  /** The run list holds exactly the qualifying windows: nothing off the board,
      nothing with a cell of another owner, nothing missed. */
  lemma RunsExact(g: Grid, player: int, n: int, r: Run)
    requires IsSquare(g) && n >= 1
    ensures r in Runs(g, player, n) <==> IsRun(g, player, n, r)
  {
    ScanOrientationExact(g, player, n, Horizontal, r);
    ScanOrientationExact(g, player, n, Vertical, r);
    ScanOrientationExact(g, player, n, DownRight, r);
    ScanOrientationExact(g, player, n, UpRight, r);
  }

  /** The three verdicts of check_winner, stated against the windows on the
      board rather than against the list the scan built. */
  lemma CheckWinnerVerdict(g: Grid, player: int, n: int)
    requires IsSquare(g) && n >= 1
    ensures HasRun(g, player, n) ==> CheckWinner(g, player, n).winner == Some(player)
    ensures !HasRun(g, player, n) && Full(g) ==> CheckWinner(g, player, n).winner == Some(0)
    ensures !HasRun(g, player, n) && !Full(g) ==> CheckWinner(g, player, n).winner == None
  {
    var runs := Runs(g, player, n);
    if HasRun(g, player, n) {
      var r :| IsRun(g, player, n, r);
      RunsExact(g, player, n, r);
    } else if |runs| > 0 {
      RunsExact(g, player, n, runs[0]);
    }
  }

  /** A window of `n` of `player`'s cells anywhere on the board makes
      check_winner report `player`. */
  lemma WindowWins(g: Grid, player: int, n: int, o: Orientation, s: Point)
    requires IsSquare(g) && n >= 1 && Window(g, player, s, Step(o), n)
    ensures CheckWinner(g, player, n).winner == Some(player)
    ensures RunFrom(o, s, n) in CheckWinner(g, player, n).runs
  {
    assert IsRun(g, player, n, RunFrom(o, s, n));
    CheckWinnerVerdict(g, player, n);
    RunsExact(g, player, n, RunFrom(o, s, n));
  }

  /** The first `m` cells of a line: distinct, since every step moves. */
  lemma {:induction false} LineCellsDistinct(s: Point, o: Orientation, m: nat)
    ensures |set k | 0 <= k < m :: Offset(s, Step(o), k)| == m
  {
    if m > 0 {
      var before := set k | 0 <= k < m - 1 :: Offset(s, Step(o), k);
      LineCellsDistinct(s, o, m - 1);
      assert Offset(s, Step(o), m - 1) !in before;
      assert (set k | 0 <= k < m :: Offset(s, Step(o), k)) == before + {Offset(s, Step(o), m - 1)};
    }
  }

  lemma {:induction false} SubsetNoLarger<T>(a: set<T>, b: set<T>)
    requires a <= b
    ensures |a| <= |b|
    decreases |a|
  {
    if a != {} {
      var x :| x in a;
      SubsetNoLarger(a - {x}, b - {x});
    }
  }

  /** A run of `n` needs `n` of the player's stones: when all of them lie in
      a set of fewer than `n` cells, check_winner finds nothing for them. */
  lemma StonesWithinNoRun(g: Grid, player: int, n: int, cells: set<Point>)
    requires IsSquare(g) && n >= 1 && |cells| < n
    requires forall q :: InGrid(g, q) && At(g, q) == player ==> q in cells
    ensures !HasRun(g, player, n)
    ensures |Runs(g, player, n)| == 0
  {
    if HasRun(g, player, n) {
      var r :| IsRun(g, player, n, r);
      var d := Step(r.orientation);
      WindowMeansCells(g, player, r.start, d, n);
      var line := set k | 0 <= k < n :: Offset(r.start, d, k);
      assert line <= cells by {
        forall q | q in line
          ensures q in cells
        {
          var k :| 0 <= k < n && q == Offset(r.start, d, k);
        }
      }
      LineCellsDistinct(r.start, r.orientation, n);
      SubsetNoLarger(line, cells);
    }
    if |Runs(g, player, n)| > 0 {
      RunsExact(g, player, n, Runs(g, player, n)[0]);
    }
  }

  /** Scan order: orientation groups in tag order 1, 2, 3, 4, and inside a
      group the starts are in row-major order. */
  predicate ScanOrdered(rs: seq<Run>) {
    forall x, y :: 0 <= x < y < |rs| ==>
      Tag(rs[x].orientation) < Tag(rs[y].orientation)
      || (rs[x].orientation == rs[y].orientation && Before(rs[x].start, rs[y].start))
  }

  lemma ScanOrientationOrdered(g: Grid, player: int, n: int, o: Orientation)
    requires IsSquare(g)
    ensures ScanOrdered(ScanOrientation(g, player, n, o))
    ensures forall x :: 0 <= x < |ScanOrientation(g, player, n, o)| ==> ScanOrientation(g, player, n, o)[x].orientation == o
  {
    var probe := Line(player, Step(o), n);
    SweepExact(g, probe, Rows(o, |g|, n), Cols(o, |g|, n));
  }

  lemma OrderedConcat(a: seq<Run>, b: seq<Run>, oa: int, ob: int)
    requires ScanOrdered(a) && ScanOrdered(b)
    requires forall x :: 0 <= x < |a| ==> Tag(a[x].orientation) <= oa
    requires forall y :: 0 <= y < |b| ==> Tag(b[y].orientation) >= ob
    requires oa < ob
    ensures ScanOrdered(a + b)
  {
    forall x, y | 0 <= x < y < |a + b|
      ensures Tag((a + b)[x].orientation) < Tag((a + b)[y].orientation)
        || ((a + b)[x].orientation == (a + b)[y].orientation && Before((a + b)[x].start, (a + b)[y].start))
    {
      if x < |a| && y >= |a| {
        assert (a + b)[x] == a[x];
        assert (a + b)[y] == b[y - |a|];
      } else if x >= |a| {
        assert (a + b)[x] == b[x - |a|];
        assert (a + b)[y] == b[y - |a|];
      }
    }
  }

  /** check_winner lists the runs in the order its loops visit them. */
  lemma RunsInScanOrder(g: Grid, player: int, n: int)
    requires IsSquare(g)
    ensures ScanOrdered(Runs(g, player, n))
  {
    var h := ScanOrientation(g, player, n, Horizontal);
    var v := ScanOrientation(g, player, n, Vertical);
    var dr := ScanOrientation(g, player, n, DownRight);
    var ur := ScanOrientation(g, player, n, UpRight);
    ScanOrientationOrdered(g, player, n, Horizontal);
    ScanOrientationOrdered(g, player, n, Vertical);
    ScanOrientationOrdered(g, player, n, DownRight);
    ScanOrientationOrdered(g, player, n, UpRight);
    OrderedConcat(h, v, 1, 2);
    assert forall x :: 0 <= x < |h + v| ==> Tag((h + v)[x].orientation) <= 2 by {
      forall x | 0 <= x < |h + v|
        ensures Tag((h + v)[x].orientation) <= 2
      {
        if x < |h| { assert (h + v)[x] == h[x]; } else { assert (h + v)[x] == v[x - |h|]; }
      }
    }
    OrderedConcat(h + v, dr, 2, 3);
    assert forall x :: 0 <= x < |h + v + dr| ==> Tag((h + v + dr)[x].orientation) <= 3 by {
      forall x | 0 <= x < |h + v + dr|
        ensures Tag((h + v + dr)[x].orientation) <= 3
      {
        if x < |h + v| { assert (h + v + dr)[x] == (h + v)[x]; } else { assert (h + v + dr)[x] == dr[x - |h + v|]; }
      }
    }
    OrderedConcat(h + v + dr, ur, 3, 4);
  }
}
