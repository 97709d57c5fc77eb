/** The game test at the end of gobang.py: nine moves on a new game, ending
    in player 1's down-right diagonal. Each position is described by its
    cells rather than by a concrete board: before the last move neither
    player has five stones, so no run exists; the last move completes the
    diagonal from (0, 0) to (4, 4). */
module GameTest {
  import opened Basics
  import opened Grid
  import opened Scanner
  import opened GoBang

  function TestMoves(): seq<Point> {
    [(0, 0), (0, 1), (1, 1), (0, 2), (2, 2), (0, 3), (3, 3), (0, 4), (4, 4)]
  }

  /** Player 1 makes the even-numbered moves, player 2 the odd ones. */
  function Mover(x: nat): int {
    if x % 2 == 0 then 1 else 2
  }

  /** Proceed through a list of moves, stopping at the first refusal. */
  function Play(g: Game, moves: seq<Point>): (r: Result<Game>)
    requires IsSquare(g.board.position)
    ensures |moves| == 0 ==> r == Ok(g)
    ensures |moves| > 0 && Proceed(g, moves[0]).Err? ==> r == Err(Proceed(g, moves[0]).error)
    decreases |moves|
  {
    if |moves| == 0 then Ok(g)
    else match Proceed(g, moves[0])
      case Err(e) => Err(e)
      case Ok(g') => Play(g', moves[1..])
  }

  /** What cell `q` holds after the first `t` test moves. */
  function CellAfter(t: nat, q: Point): int
    requires t <= |TestMoves()|
  {
    if t == 0 then 0
    else if TestMoves()[t - 1] == q then Mover(t - 1)
    else CellAfter(t - 1, q)
  }

  /** The test moves are nine different cells. */
  lemma MovesDistinct()
    ensures forall a, b :: 0 <= a < b < |TestMoves()| ==> TestMoves()[a] != TestMoves()[b]
  {
  }

  /** A cell not yet played is empty; a played cell holds the stone of the
      player who played it. */
  lemma {:induction false} CellAfterMeaning(t: nat, q: Point)
    requires t <= |TestMoves()|
    ensures q !in TestMoves()[..t] ==> CellAfter(t, q) == 0
    ensures forall x :: 0 <= x < t && TestMoves()[x] == q ==> CellAfter(t, q) == Mover(x)
    ensures CellAfter(t, q) != 0 ==> exists x :: 0 <= x < t && TestMoves()[x] == q && CellAfter(t, q) == Mover(x)
  {
    if t > 0 {
      CellAfterMeaning(t - 1, q);
      MovesDistinct();
      assert TestMoves()[..t] == TestMoves()[..t - 1] + [TestMoves()[t - 1]];
    }
  }

  /** The game after the first `t` test moves, `t` at most eight: stones on
      the played cells only, the round count and history in step, player
      `Mover(t)` to move and no result yet. */
  ghost predicate Reached(g: Game, t: nat)
  {
    && t < |TestMoves()|
    && IsSquare(g.board.position) && |g.board.position| == BOARD_SIZE
    && g.board.roundNum == t && g.curPlayer == Mover(t)
    && g.history == TestMoves()[..t] && g.result == None
    && forall q :: InGrid(g.board.position, q) ==> At(g.board.position, q) == CellAfter(t, q)
  }

  /** Player 1's stones before the last move: the first four diagonal cells. */
  function FirstStones(): set<Point> {
    {(0, 0), (1, 1), (2, 2), (3, 3)}
  }

  /** Player 2's stones: (0, 1) to (0, 4). */
  function SecondStones(): set<Point> {
    {(0, 1), (0, 2), (0, 3), (0, 4)}
  }

  /** Up to the eighth move each player's stones lie in a set of four cells. */
  lemma {:induction false} StonesBeforeLast(t: nat, q: Point)
    requires t < |TestMoves()| && CellAfter(t, q) != 0
    ensures CellAfter(t, q) == 1 ==> q in FirstStones()
    ensures CellAfter(t, q) == 2 ==> q in SecondStones()
  {
    CellAfterMeaning(t, q);
    var x :| 0 <= x < t && TestMoves()[x] == q && CellAfter(t, q) == Mover(x);
    assert x < 8;
  }

  /** Playing move `t` on the position after `t` moves: the cell was empty,
      and the new board holds exactly the stones of the first `t + 1` moves. */
  lemma {:induction false} NextCells(b: Grid, t: nat)
    requires IsSquare(b) && t < |TestMoves()|
    requires forall q :: InGrid(b, q) ==> At(b, q) == CellAfter(t, q)
    requires InGrid(b, TestMoves()[t])
    ensures At(b, TestMoves()[t]) == 0
    ensures var b' := Set(b, TestMoves()[t], Mover(t));
      forall q :: InGrid(b', q) ==> At(b', q) == CellAfter(t + 1, q)
  {
    var m := TestMoves()[t];
    CellAfterMeaning(t, m);
    MovesDistinct();
    assert m !in TestMoves()[..t];
  }

  /** Up to the eighth move, on a board holding exactly the stones played so
      far, each player's stones lie in that player's set of four. */
  lemma OwnStonesBeforeLast(b: Grid, t: nat, player: int)
    requires IsSquare(b) && t < |TestMoves()|
    requires forall q :: InGrid(b, q) ==> At(b, q) == CellAfter(t, q)
    requires player == 1 || player == 2
    ensures forall q :: InGrid(b, q) && At(b, q) == player ==> q in (if player == 1 then FirstStones() else SecondStones())
  {
    forall q | InGrid(b, q) && At(b, q) == player
      ensures q in (if player == 1 then FirstStones() else SecondStones())
    {
      StonesBeforeLast(t, q);
    }
  }

  /** The corner (9, 9) is never played. */
  lemma CornerEmpty(b: Grid, t: nat)
    requires IsSquare(b) && |b| == BOARD_SIZE && t <= |TestMoves()|
    requires forall q :: InGrid(b, q) ==> At(b, q) == CellAfter(t, q)
    ensures At(b, (9, 9)) == 0
  {
    CellAfterMeaning(t, (9, 9));
  }

  /** Fewer than five stones of `player` and one empty cell: no verdict. */
  lemma FewStonesNoVerdict(b: Grid, player: int, own: set<Point>, empty: Point)
    requires IsSquare(b) && |own| < 5 && InGrid(b, empty) && At(b, empty) == 0
    requires forall q :: InGrid(b, q) && At(b, q) == player ==> q in own
    ensures CheckWinner(b, player, 5).winner == None
  {
    StonesWithinNoRun(b, player, 5, own);
    CheckWinnerVerdict(b, player, 5);
  }

  /** Up to the eighth move, a board holding exactly the stones played so far
      gives no verdict for either player. */
  lemma NoVerdictBeforeLast(b: Grid, t: nat, player: int)
    requires IsSquare(b) && |b| == BOARD_SIZE && t < |TestMoves()|
    requires player == 1 || player == 2
    requires forall q :: InGrid(b, q) ==> At(b, q) == CellAfter(t, q)
    ensures CheckWinner(b, player, 5).winner == None
  {
    OwnStonesBeforeLast(b, t, player);
    CornerEmpty(b, t);
    assert |FirstStones()| == 4 && |SecondStones()| == 4;
    FewStonesNoVerdict(b, player, if player == 1 then FirstStones() else SecondStones(), (9, 9));
  }

  /** The players take turns. */
  lemma MoverAlternates(t: nat)
    ensures Opponent(Mover(t)) == Mover(t + 1)
  {
  }

  lemma HistoryGrows(t: nat)
    requires t < |TestMoves()|
    ensures TestMoves()[..t] + [TestMoves()[t]] == TestMoves()[..t + 1]
  {
  }

  /** The game after an accepted move that decides nothing: the stone is on
      the board, the round count and history grow, the turn passes. */
  function Continued(g: Game, pos: Point): Game
    requires IsSquare(g.board.position) && InGrid(g.board.position, pos)
  {
    Game(Board(Set(g.board.position, pos, g.curPlayer), g.board.roundNum + 1), Opponent(g.curPlayer), g.history + [pos], None)
  }

  /** Each of the first eight moves is accepted and decides nothing. */
  lemma ProceedUndecided(g: Game, t: nat)
    requires Reached(g, t) && t + 1 < |TestMoves()|
    ensures Proceed(g, TestMoves()[t]) == Ok(Continued(g, TestMoves()[t]))
  {
    var m := TestMoves()[t];
    NextCells(g.board.position, t);
    NoVerdictBeforeLast(Set(g.board.position, m, Mover(t)), t + 1, Mover(t));
  }

  /** ... and leads to the position after `t + 1` moves. */
  lemma ContinuedReached(g: Game, t: nat)
    requires Reached(g, t) && t + 1 < |TestMoves()|
    ensures Reached(Continued(g, TestMoves()[t]), t + 1)
  {
    NextCells(g.board.position, t);
    MoverAlternates(t);
    HistoryGrows(t);
  }

  /** A move of the first eight is accepted, leaves the game undecided and
      passes the turn. */
  lemma StepUndecided(g: Game, t: nat)
    requires Reached(g, t) && t + 1 < |TestMoves()|
    ensures Proceed(g, TestMoves()[t]).Ok?
    ensures Reached(Proceed(g, TestMoves()[t]).value, t + 1)
  {
    ProceedUndecided(g, t);
    ContinuedReached(g, t);
  }

  /** The game after all nine moves: player 1 has won and is still the one
      "to move", and the diagonal (0, 0) to (4, 4) is on the board. */
  predicate Finished(g: Game)
  {
    && IsSquare(g.board.position) && |g.board.position| == BOARD_SIZE
    && g.board.roundNum == |TestMoves()| && g.curPlayer == 1
    && g.history == TestMoves() && g.result == Some(1)
    && Window(g.board.position, 1, (0, 0), (1, 1), 5)
  }

  /** Before the ninth move: player 1 to move, (4, 4) empty, and a stone
      there completes the diagonal (0, 0) to (4, 4). */
  lemma BeforeLastMove(g: Game)
    requires Reached(g, 8)
    ensures IsSquare(g.board.position) && |g.board.position| == BOARD_SIZE
    ensures g.result == None && g.curPlayer == 1 && g.board.roundNum == 8
    ensures g.history + [(4, 4)] == TestMoves()
    ensures At(g.board.position, (4, 4)) == 0
    ensures Window(Set(g.board.position, (4, 4), 1), 1, (0, 0), (1, 1), 5)
  {
    NextCells(g.board.position, 8);
    HistoryGrows(8);
    var b' := Set(g.board.position, (4, 4), 1);
    assert At(b', (0, 0)) == CellAfter(9, (0, 0));
    assert At(b', (1, 1)) == CellAfter(9, (1, 1));
    assert At(b', (2, 2)) == CellAfter(9, (2, 2));
    assert At(b', (3, 3)) == CellAfter(9, (3, 3));
    assert Window(b', 1, (4, 4), (1, 1), 1);
    assert Window(b', 1, (3, 3), (1, 1), 2);
    assert Window(b', 1, (2, 2), (1, 1), 3);
    assert Window(b', 1, (1, 1), (1, 1), 4);
  }

  /** The ninth move finishes the game. */
  lemma LastStepWins(g: Game)
    requires Reached(g, 8)
    ensures Proceed(g, TestMoves()[8]).Ok?
    ensures Finished(Proceed(g, TestMoves()[8]).value)
  {
    BeforeLastMove(g);
    LastMoveFinishes(g);
  }

  lemma LastMoveFinishes(g: Game)
    requires IsSquare(g.board.position) && |g.board.position| == BOARD_SIZE
    requires g.result == None && g.curPlayer == 1 && g.board.roundNum == 8
    requires g.history + [(4, 4)] == TestMoves()
    requires At(g.board.position, (4, 4)) == 0
    requires Window(Set(g.board.position, (4, 4), 1), 1, (0, 0), (1, 1), 5)
    ensures Proceed(g, (4, 4)).Ok? && Finished(Proceed(g, (4, 4)).value)
  {
    ProceedCompletingWins(g, (4, 4), (0, 0), DownRight);
  }

  /** From the game after `t` moves, the remaining test moves all succeed and
      finish the game. */
  lemma {:induction false} PlayFrom(g: Game, t: nat)
    requires Reached(g, t)
    ensures Play(g, TestMoves()[t..]).Ok?
    ensures Finished(Play(g, TestMoves()[t..]).value)
    decreases |TestMoves()| - t
  {
    var rest := TestMoves()[t..];
    assert rest[0] == TestMoves()[t];
    if t + 1 < |TestMoves()| {
      StepUndecided(g, t);
      PlayFrom(Proceed(g, TestMoves()[t]).value, t + 1);
      assert rest[1..] == TestMoves()[t + 1..];
    } else {
      LastStepWins(g);
      var g' := Proceed(g, TestMoves()[t]).value;
      assert rest[1..] == [];
      assert Play(g', rest[1..]) == Ok(g');
    }
  }

  /** The game test: all nine moves are accepted, player 1 wins by the
      diagonal and remains the one to move, and a further move is refused. */
  lemma NineMoveGame(pos: Point)
    ensures Play(NewGame(), TestMoves()).Ok?
    ensures Finished(Play(NewGame(), TestMoves()).value)
    ensures Proceed(Play(NewGame(), TestMoves()).value, pos) == Err(GameOver)
  {
    assert Reached(NewGame(), 0);
    PlayFrom(NewGame(), 0);
    assert TestMoves()[0..] == TestMoves();
  }
}
