/** The check_winner boards at the end of gobang.py, stated as facts about
    the model. Each follows from the general lemmas: a window of five wins,
    and a board on which every window meets a blocking cell gives no verdict. */
module WinnerTests {
  import opened Basics
  import opened Grid
  import opened Scanner
  import opened GoBang

  // ---------------------------------------------------------------------
  // The check_winner boards

  /** No five for player 1: the column-4 line and the diagonal both have a gap. */
  function Undecided(): Grid {
    [[1, 0, 0, 0, 1, 0],
     [0, 1, 0, 0, 1, 0],
     [0, 0, 1, 0, 0, 0],
     [0, 0, 0, 0, 1, 0],
     [0, 0, 0, 0, 1, 0],
     [0, 0, 0, 0, 0, 0]]
  }

  function RowFive(): Grid {
    [[2, 2, 2, 2, 2, 0],
     [0, 1, 0, 0, 1, 0],
     [0, 0, 0, 0, 1, 0],
     [0, 0, 0, 1, 1, 0],
     [0, 0, 0, 0, 0, 0],
     [0, 0, 0, 0, 0, 0]]
  }

  function ColumnFive(): Grid {
    [[1, 0, 0, 0, 1, 0],
     [0, 1, 0, 0, 1, 0],
     [0, 0, 0, 0, 1, 0],
     [0, 0, 0, 1, 1, 0],
     [0, 0, 0, 0, 1, 0],
     [0, 0, 0, 0, 0, 0]]
  }

  function DiagonalFive(): Grid {
    [[1, 0, 0, 0, 1, 0],
     [0, 1, 0, 0, 1, 0],
     [0, 0, 1, 0, 0, 0],
     [0, 0, 0, 1, 1, 0],
     [0, 0, 0, 0, 1, 0],
     [0, 0, 0, 0, 0, 0]]
  }

  function AntiDiagonalFive(): Grid {
    [[1, 0, 0, 0, 2, 0],
     [0, 1, 0, 2, 0, 0],
     [0, 0, 2, 0, 0, 0],
     [0, 2, 0, 0, 1, 0],
     [2, 0, 0, 0, 0, 0],
     [0, 0, 0, 0, 0, 0]]
  }

  /** Cell `k` of the window of five at `s` along `o` does not hold
      player 1's stone, so that window is not a run for player 1. */
  predicate Gap(g: Grid, o: Orientation, s: Point, k: int)
    requires IsSquare(g)
  {
    0 <= k < 5 && !(InGrid(g, Offset(s, Step(o), k)) && At(g, Offset(s, Step(o), k)) == 1)
  }

  /** On the undecided board every row window crosses the empty column 3. */
  lemma UndecidedRowGap(g: Grid, s: Point)
    requires g == Undecided()
    requires 0 <= s.0 < 6 && 0 <= s.1 < 2
    ensures Gap(g, Horizontal, s, 3 - s.1)
  {
    assert Offset(s, Step(Horizontal), 3 - s.1) == (s.0, 3);
  }

  /** Every column window crosses row 2, and in column 2 it crosses (1, 2). */
  lemma UndecidedColumnGap(g: Grid, s: Point)
    requires g == Undecided()
    requires 0 <= s.0 < 2 && 0 <= s.1 < 6
    ensures s.1 == 2 ==> Gap(g, Vertical, s, 1 - s.0)
    ensures s.1 != 2 ==> Gap(g, Vertical, s, 2 - s.0)
  {
    if s.1 == 2 {
      assert Offset(s, Step(Vertical), 1 - s.0) == (1, 2);
    } else {
      assert Offset(s, Step(Vertical), 2 - s.0) == (2, s.1);
    }
  }

  /** The main diagonal breaks at (3, 3); the two beside it start with a gap. */
  lemma UndecidedDiagonalGap(g: Grid, s: Point)
    requires g == Undecided()
    requires 0 <= s.0 < 2 && 0 <= s.1 < 2
    ensures s.0 == s.1 ==> Gap(g, DownRight, s, 3 - s.0)
    ensures s.0 != s.1 ==> Gap(g, DownRight, s, 1)
  {
    if s.0 == s.1 {
      assert Offset(s, Step(DownRight), 3 - s.0) == (3, 3);
    } else {
      assert Offset(s, Step(DownRight), 1) == (s.0 + 1, s.1 + 1);
    }
  }

  /** An up-right window of five starts in rows 4..5, columns 0..1: all empty. */
  lemma UndecidedAntiDiagonalGap(g: Grid, s: Point)
    requires g == Undecided()
    requires 4 <= s.0 < 6 && 0 <= s.1 < 2
    ensures Gap(g, UpRight, s, 0)
  {
    assert Offset(s, Step(UpRight), 0) == s;
  }

  /** No window of five on the undecided board is a run for player 1. */
  lemma UndecidedHasNoRun(g: Grid, r: Run)
    requires g == Undecided()
    ensures !IsRun(g, 1, 5, r)
  {
    if IsRun(g, 1, 5, r) {
      WindowMeansCells(g, 1, r.start, Step(r.orientation), 5);
      assert InGrid(g, Offset(r.start, Step(r.orientation), 0));
      assert InGrid(g, Offset(r.start, Step(r.orientation), 4));
      match r.orientation
      case Horizontal => UndecidedRowGap(g, r.start);
      case Vertical => UndecidedColumnGap(g, r.start);
      case DownRight => UndecidedDiagonalGap(g, r.start);
      case UpRight => UndecidedAntiDiagonalGap(g, r.start);
    }
  }

  /** First test board: no verdict for player 1, the board not being full. */
  lemma UndecidedBoardVerdict(g: Grid)
    requires g == Undecided()
    ensures CheckWinner(g, 1, 5).winner == None
  {
    forall r | true
      ensures !IsRun(g, 1, 5, r)
    {
      UndecidedHasNoRun(g, r);
    }
    assert g[5][5] == 0;
    CheckWinnerVerdict(g, 1, 5);
  }

  /** Player 2's five along row 0 of the second board. */
  lemma RowFiveWindow(g: Grid)
    requires g == RowFive()
    ensures Window(g, 2, (0, 0), (0, 1), 5)
  {
    assert Window(g, 2, (0, 4), (0, 1), 1);
    assert Window(g, 2, (0, 3), (0, 1), 2);
    assert Window(g, 2, (0, 2), (0, 1), 3);
    assert Window(g, 2, (0, 1), (0, 1), 4);
  }

  /** Second test board: player 2 wins by the row-0 five. */
  lemma RowFiveVerdict(g: Grid)
    requires g == RowFive()
    ensures CheckWinner(g, 2, 5).winner == Some(2)
  {
    RowFiveWindow(g);
    WindowWins(g, 2, 5, Horizontal, (0, 0));
  }

  /** Player 1's five down column 4 of the third board. */
  lemma ColumnFiveWindow(g: Grid)
    requires g == ColumnFive()
    ensures Window(g, 1, (0, 4), (1, 0), 5)
  {
    assert Window(g, 1, (4, 4), (1, 0), 1);
    assert Window(g, 1, (3, 4), (1, 0), 2);
    assert Window(g, 1, (2, 4), (1, 0), 3);
    assert Window(g, 1, (1, 4), (1, 0), 4);
  }

  /** Third test board: player 1 wins by the column-4 five. */
  lemma ColumnFiveVerdict(g: Grid)
    requires g == ColumnFive()
    ensures CheckWinner(g, 1, 5).winner == Some(1)
  {
    ColumnFiveWindow(g);
    WindowWins(g, 1, 5, Vertical, (0, 4));
  }

  /** Player 1's five on the main diagonal of the fourth board. */
  lemma DiagonalFiveWindow(g: Grid)
    requires g == DiagonalFive()
    ensures Window(g, 1, (0, 0), (1, 1), 5)
  {
    assert Window(g, 1, (4, 4), (1, 1), 1);
    assert Window(g, 1, (3, 3), (1, 1), 2);
    assert Window(g, 1, (2, 2), (1, 1), 3);
    assert Window(g, 1, (1, 1), (1, 1), 4);
  }

  /** Fourth test board: player 1 wins by the diagonal five. */
  lemma DiagonalFiveVerdict(g: Grid)
    requires g == DiagonalFive()
    ensures CheckWinner(g, 1, 5).winner == Some(1)
  {
    DiagonalFiveWindow(g);
    WindowWins(g, 1, 5, DownRight, (0, 0));
  }

  /** Player 2's five from (4, 0) up to (0, 4) on the fifth board. */
  lemma AntiDiagonalFiveWindow(g: Grid)
    requires g == AntiDiagonalFive()
    ensures Window(g, 2, (4, 0), (-1, 1), 5)
  {
    assert Window(g, 2, (0, 4), (-1, 1), 1);
    assert Window(g, 2, (1, 3), (-1, 1), 2);
    assert Window(g, 2, (2, 2), (-1, 1), 3);
    assert Window(g, 2, (3, 1), (-1, 1), 4);
  }

  /** Fifth test board: player 2 wins by the up-right five. */
  lemma AntiDiagonalFiveVerdict(g: Grid)
    requires g == AntiDiagonalFive()
    ensures CheckWinner(g, 2, 5).winner == Some(2)
  {
    AntiDiagonalFiveWindow(g);
    WindowWins(g, 2, 5, UpRight, (4, 0));
  }
}
