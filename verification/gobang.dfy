/** `GoBangBoard` and `GoBangGame` (gobang.py): placing a stone, and the game
    state machine that alternates players, keeps the move history and latches
    the result. */
module GoBang {
  import opened Basics
  import opened Grid
  import opened Scanner

  /** Size of the board a new game creates; `put` also asserts against it. */
  const BOARD_SIZE := 10

  /** `GoBangBoard`: the grid and the number of stones placed so far. */
  datatype Board = Board(position: Grid, roundNum: int)

  function NewBoard(): (b: Board)
    ensures IsSquare(b.position) && |b.position| == BOARD_SIZE && b.roundNum == 0
    ensures forall q :: InGrid(b.position, q) ==> At(b.position, q) == 0
  {
    Board(EmptyGrid(BOARD_SIZE), 0)
  }

  /** `GoBangBoard.put`. The assertions admit an index equal to BOARD_SIZE,
      which then fails as a list index; a stone already on the cell raises. */
  function Put(b: Board, player: int, pos: Point): (r: Result<Board>)
    requires IsSquare(b.position)
    ensures r.Ok? <==> 0 <= pos.0 <= BOARD_SIZE && 0 <= pos.1 <= BOARD_SIZE
                        && InGrid(b.position, pos) && At(b.position, pos) == 0
    ensures !(0 <= pos.0 <= BOARD_SIZE && 0 <= pos.1 <= BOARD_SIZE) ==> r == Err(AssertionFailed)
    ensures r.Ok? ==> IsSquare(r.value.position) && |r.value.position| == |b.position|
                      && r.value.roundNum == b.roundNum + 1
                      && At(r.value.position, pos) == player
                      && forall q :: InGrid(b.position, q) && q != pos ==> At(r.value.position, q) == At(b.position, q)
  {
    var (row, column) := pos;
    if !(0 <= row <= BOARD_SIZE) || !(0 <= column <= BOARD_SIZE) then Err(AssertionFailed)
    else if !InGrid(b.position, pos) then Err(IndexOutOfRange)
    else if At(b.position, pos) != 0 then Err(OccupiedCell)
    else Ok(Board(Set(b.position, pos, player), b.roundNum + 1))
  }

  /** An occupied cell is refused, so the caller's board and round count stay as they were. */
  lemma PutOccupiedRefused(b: Board, player: int, pos: Point)
    requires IsSquare(b.position) && |b.position| <= BOARD_SIZE
    requires InGrid(b.position, pos) && At(b.position, pos) != 0
    ensures Put(b, player, pos) == Err(OccupiedCell)
  {
  }

  /** On the size-10 board the assertions let row 10 through, and the list
      index then fails: only `row < BOARD_SIZE` makes a valid index. */
  lemma PutAtBoardSizeEdge(player: int)
    ensures Put(NewBoard(), player, (BOARD_SIZE, 0)) == Err(IndexOutOfRange)
    ensures Put(NewBoard(), player, (0, BOARD_SIZE)) == Err(IndexOutOfRange)
    ensures Put(NewBoard(), player, (BOARD_SIZE + 1, 0)) == Err(AssertionFailed)
  {
  }

  /** The board invariant: the round count is the number of stones on the board. */
  predicate BoardOk(b: Board) {
    IsSquare(b.position) && b.roundNum == |Occupied(b.position)|
  }

  /** A successful put of a real player's stone keeps the count of stones equal
      to the round count. */
  lemma PutKeepsCount(b: Board, player: int, pos: Point)
    requires BoardOk(b) && player != 0 && Put(b, player, pos).Ok?
    ensures BoardOk(Put(b, player, pos).value)
  {
    OccupiedGrows(b.position, pos, player);
  }

  /** `GoBangGame`: `result` is None while the game runs, then the winner, or 0
      for a draw. */
  datatype Game = Game(board: Board, curPlayer: int, history: seq<Point>, result: Option<int>)

  /** `GoBangGame.__init__` (the start time is left out). */
  function NewGame(): (g: Game)
    ensures g.curPlayer == 1 && g.history == [] && g.result == None
    ensures |g.board.position| == BOARD_SIZE && BoardOk(g.board) && g.board.roundNum == 0
  {
    EmptyGridUnoccupied(BOARD_SIZE);
    Game(NewBoard(), 1, [], None)
  }

  /** `GoBangGame.proceed` without the optional dump. A refused move changes
      nothing: the error comes back instead of a new game. */
  function Proceed(g: Game, pos: Point): (r: Result<Game>)
    requires IsSquare(g.board.position)
    ensures g.result.Some? ==> r == Err(GameOver)
    ensures g.result.None? ==> (r.Ok? <==> Put(g.board, g.curPlayer, pos).Ok?)
    ensures r.Ok? ==>
      && r.value.board == Put(g.board, g.curPlayer, pos).value
      && r.value.history == g.history + [pos]
      && r.value.result == CheckWinner(r.value.board.position, g.curPlayer, WIN_LENGTH).winner
      && (r.value.result.None? ==> r.value.curPlayer == Opponent(g.curPlayer))
      && (r.value.result.Some? ==> r.value.curPlayer == g.curPlayer)
  {
    if g.result.Some? then Err(GameOver)
    else
      match Put(g.board, g.curPlayer, pos)
      case Err(e) => Err(e)
      case Ok(b) =>
        var winner := CheckWinner(b.position, g.curPlayer, WIN_LENGTH).winner;
        Ok(Game(b, if winner.None? then Opponent(g.curPlayer) else g.curPlayer, g.history + [pos], winner))
  }

  /** The game invariant: players alternate between 1 and 2, every stone is
      counted, the history has one entry per round and names occupied cells,
      and a decided win names the player who is still "to move". */
  predicate GameOk(g: Game) {
    && BoardOk(g.board)
    && (g.curPlayer == 1 || g.curPlayer == 2)
    && g.board.roundNum == |g.history|
    && (forall x :: 0 <= x < |g.history| ==> InGrid(g.board.position, g.history[x]) && At(g.board.position, g.history[x]) != 0)
    && (g.result.Some? ==> g.result.value == 0 || g.result.value == g.curPlayer)
  }

  lemma NewGameOk()
    ensures GameOk(NewGame())
  {
  }

  /** Every accepted move keeps the game invariant: stones never change once
      placed, history and round count grow together, and a win is credited to
      the player who just moved. */
  lemma ProceedKeepsGameOk(g: Game, pos: Point)
    requires GameOk(g) && Proceed(g, pos).Ok?
    ensures GameOk(Proceed(g, pos).value)
  {
    var g' := Proceed(g, pos).value;
    PutKeepsCount(g.board, g.curPlayer, pos);
    forall x | 0 <= x < |g'.history|
      ensures InGrid(g'.board.position, g'.history[x]) && At(g'.board.position, g'.history[x]) != 0
    {
      if x < |g.history| {
        assert g'.history[x] == g.history[x];
      }
    }
  }

  /** Once a result is known the game is frozen: every further move is refused. */
  lemma ResultLatched(g: Game, pos: Point)
    requires IsSquare(g.board.position) && g.result.Some?
    ensures Proceed(g, pos) == Err(GameOver)
  {
  }

  /** A win is reported exactly when the mover now owns a window of five; a
      full board without one is a draw; the opponent's lines are never looked at. */
  lemma ProceedVerdict(g: Game, pos: Point)
    requires IsSquare(g.board.position) && Proceed(g, pos).Ok?
    ensures var b := Proceed(g, pos).value.board.position;
      && (HasRun(b, g.curPlayer, WIN_LENGTH) ==> Proceed(g, pos).value.result == Some(g.curPlayer))
      && (!HasRun(b, g.curPlayer, WIN_LENGTH) && Full(b) ==> Proceed(g, pos).value.result == Some(0))
      && (!HasRun(b, g.curPlayer, WIN_LENGTH) && !Full(b) ==> Proceed(g, pos).value.result == None)
  {
    CheckWinnerVerdict(Proceed(g, pos).value.board.position, g.curPlayer, WIN_LENGTH);
  }

  /** A move that completes a window of five for the mover is accepted and
      wins: the mover stays "to move" and the result is latched. */
  lemma ProceedCompletingWins(g: Game, pos: Point, s: Point, o: Orientation)
    requires IsSquare(g.board.position) && g.result == None
    requires 0 <= pos.0 < |g.board.position| <= BOARD_SIZE && 0 <= pos.1 < |g.board.position|
    requires At(g.board.position, pos) == 0
    requires Window(Set(g.board.position, pos, g.curPlayer), g.curPlayer, s, Step(o), WIN_LENGTH)
    ensures Proceed(g, pos) == Ok(Game(Board(Set(g.board.position, pos, g.curPlayer), g.board.roundNum + 1),
                                      g.curPlayer, g.history + [pos], Some(g.curPlayer)))
  {
    WindowWins(Set(g.board.position, pos, g.curPlayer), g.curPlayer, WIN_LENGTH, o, s);
  }
}
