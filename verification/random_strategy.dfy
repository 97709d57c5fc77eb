/** `RandomStrategy.model` (ai_strategy/random_strategy.py): list the empty
    cells row by row and pick one at random. */
module RandomStrategy {
  import opened Basics
  import opened Grid

  /** `empty_list`: the empty cells in row-major order. The MCTS expansion
      enumerates children with the same double loop. */
  function EmptyCells(g: Grid): (cells: seq<Point>)
    requires IsSquare(g)
    ensures forall p :: p in cells <==> InGrid(g, p) && At(g, p) == 0
    ensures RowMajorSorted(cells)
  {
    SweepExact(g, Vacant, |g|, |g|);
    Sweep(g, Vacant, |g|, |g|)
  }

  /** There is nothing to list exactly when the board is full. */
  lemma EmptyCellsNoneIffFull(g: Grid)
    requires IsSquare(g)
    ensures |EmptyCells(g)| == 0 <==> Full(g)
  {
    if !Full(g) {
      var i, j :| 0 <= i < |g| && 0 <= j < |g| && g[i][j] == 0;
      assert (i, j) in EmptyCells(g);
    }
    if |EmptyCells(g)| > 0 {
      assert EmptyCells(g)[0] in EmptyCells(g);
    }
  }

  /** `model(cur_board, ai_player)`; `k` is the selection `random.choice` makes. */
  function Model(g: Grid, aiPlayer: int, k: nat): (r: Result<Point>)
    requires IsSquare(g)
    ensures r.Ok? ==> InGrid(g, r.value) && At(g, r.value) == 0
    ensures r.Err? <==> Full(g)
    ensures r.Err? ==> r.error == EmptyChoice
  {
    EmptyCellsNoneIffFull(g);
    var cells := EmptyCells(g);
    if |cells| == 0 then Err(EmptyChoice) else Ok(Choose(cells, k))
  }

  /** Every empty cell is a possible answer. */
  lemma EveryEmptyCellPossible(g: Grid, aiPlayer: int, p: Point)
    requires IsSquare(g) && InGrid(g, p) && At(g, p) == 0
    ensures exists k: nat :: Model(g, aiPlayer, k) == Ok(p)
  {
    var cells := EmptyCells(g);
    var x :| 0 <= x < |cells| && cells[x] == p;
    ChooseReachesEvery(cells, x);
    assert Model(g, aiPlayer, x) == Ok(p);
  }

  /** The player argument plays no part in the choice. */
  lemma IgnoresPlayer(g: Grid, a: int, b: int, k: nat)
    requires IsSquare(g)
    ensures Model(g, a, k) == Model(g, b, k)
  {
  }
}
