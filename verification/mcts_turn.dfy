/** The turn-level steps of `MCTSStrategy` (ai_strategy/mcts_strategy.py):
    finding the opponent's new stone, moving the tree to it, the first part
    of `model` (start or continue, then the rule short-circuit), `reset`, and
    the final choice after the search. */
module MctsTurn {
  import opened Basics
  import opened Grid
  import opened Mcts
  import RuleStrategy

  /** Two boards of the same square shape, as `np.array(board) - np.array(cur_board)` needs. */
  predicate SameShape(board: Grid, cur: Grid) {
    IsSquare(board) && IsSquare(cur) && |board| == |cur|
  }

  /** The difference between the boards is positive at `(i, j)`. */
  predicate Gain(board: Grid, cur: Grid, i: int, j: int)
    requires SameShape(board, cur)
  {
    0 <= i < |board| && 0 <= j < |board| && board[i][j] - cur[i][j] > 0
  }

  /** The inner loop of `receive_human_action` on row `i`, from column `j`
      on: the first column with a positive difference. */
  function FirstGainFrom(board: Grid, cur: Grid, i: nat, j: nat): (r: Option<nat>)
    requires SameShape(board, cur) && i < |board| && j <= |board|
    ensures r.Some? ==> j <= r.value < |board| && Gain(board, cur, i, r.value)
    ensures r.Some? ==> forall j' :: j <= j' < r.value ==> !Gain(board, cur, i, j')
    ensures r.None? ==> forall j' :: j <= j' < |board| ==> !Gain(board, cur, i, j')
    decreases |board| - j
  {
    if j == |board| then None
    else if Gain(board, cur, i, j) then Some(j)
    else FirstGainFrom(board, cur, i, j + 1)
  }

  /** `new_point` once the outer loop has done rows `0 .. i-1`. The `break`
      leaves only the inner loop, so a later row with a positive difference
      overwrites what an earlier row found. */
  function NewStoneAfter(board: Grid, cur: Grid, i: nat): (r: Option<Point>)
    requires SameShape(board, cur) && i <= |board|
    ensures r.Some? ==> r.value.0 < i && Gain(board, cur, r.value.0, r.value.1)
    ensures r.Some? ==> forall j' :: 0 <= j' < r.value.1 ==> !Gain(board, cur, r.value.0, j')
    ensures r.Some? ==> forall i', j' :: r.value.0 < i' < i && 0 <= j' < |board| ==> !Gain(board, cur, i', j')
    ensures r.None? ==> forall i', j' :: 0 <= i' < i && 0 <= j' < |board| ==> !Gain(board, cur, i', j')
    decreases i
  {
    if i == 0 then None
    else match FirstGainFrom(board, cur, i - 1, 0)
      case Some(j) => Some((i - 1, j))
      case None => NewStoneAfter(board, cur, i - 1)
  }

  /** `new_point` after the double loop over the board difference. */
  function NewStone(board: Grid, cur: Grid): (r: Option<Point>)
    requires SameShape(board, cur)
    ensures r.None? <==> forall i, j :: 0 <= i < |board| && 0 <= j < |board| ==> !Gain(board, cur, i, j)
    ensures r.Some? ==> r.value.0 < |board| && Gain(board, cur, r.value.0, r.value.1)
    ensures r.Some? ==> forall i, j :: r.value.0 < i < |board| && 0 <= j < |board| ==> !Gain(board, cur, i, j)
  {
    NewStoneAfter(board, cur, |board|)
  }

  /** What the double loop finds: nothing exactly when no cell gained; else a
      cell that gained, in the LAST row with a gain and, within that row, the
      first column with one. */
  lemma NewStoneMeaning(board: Grid, cur: Grid)
    requires SameShape(board, cur)
    ensures NewStone(board, cur).None? <==> forall i, j :: 0 <= i < |board| && 0 <= j < |board| ==> !Gain(board, cur, i, j)
    ensures NewStone(board, cur).Some? ==>
      var (i, j) := NewStone(board, cur).value;
      && InGrid(board, (i, j)) && board[i][j] > cur[i][j]
      && (forall i', j' :: Gain(board, cur, i', j') ==> i' < i || (i' == i && j' >= j))
  {
    if NewStone(board, cur).Some? {
      var (i, j) := NewStone(board, cur).value;
      forall i', j' | Gain(board, cur, i', j')
        ensures i' < i || (i' == i && j' >= j)
      {
      }
    } else {
      forall i, j | 0 <= i < |board| && 0 <= j < |board|
        ensures !Gain(board, cur, i, j)
      {
      }
    }
  }

  /** A single new stone is found wherever it is. */
  lemma SingleNewStoneFound(board: Grid, cur: Grid, p: Point)
    requires SameShape(board, cur) && Gain(board, cur, p.0, p.1)
    requires forall i, j :: Gain(board, cur, i, j) ==> (i, j) == p
    ensures NewStone(board, cur) == Some(p)
  {
    NewStoneMeaning(board, cur);
  }

  /** Two gains in different rows: the lower row's is reported, not the first
      the loops met. */
  lemma NewStoneTakesLastRow(board: Grid, cur: Grid, p: Point, q: Point)
    requires SameShape(board, cur) && Gain(board, cur, p.0, p.1) && Gain(board, cur, q.0, q.1)
    requires p.0 < q.0
    ensures NewStone(board, cur).Some? && NewStone(board, cur).value != p
  {
    NewStoneMeaning(board, cur);
  }

  // ---------------------------------------------------------------------
  // Moving the tree to the opponent's move

  /** `cs[x]` is the first node in `cs` whose action is `pt`. */
  predicate MatchAt(t: Tree, cs: seq<nat>, pt: Point, x: int)
    requires forall y :: 0 <= y < |cs| ==> cs[y] < |t.nodes|
  {
    0 <= x < |cs| && t.nodes[cs[x]].action == Some(pt)
    && forall y :: 0 <= y < x ==> t.nodes[cs[y]].action != Some(pt)
  }

  /** The `for node in root.child_node: if node.action == new_point` search. */
  function FirstMatch(t: Tree, cs: seq<nat>, pt: Point): (r: Option<nat>)
    requires forall y :: 0 <= y < |cs| ==> cs[y] < |t.nodes|
    ensures r.Some? ==> exists x :: MatchAt(t, cs, pt, x) && cs[x] == r.value
    ensures r.None? <==> forall y :: 0 <= y < |cs| ==> t.nodes[cs[y]].action != Some(pt)
  {
    if |cs| == 0 then None
    else if t.nodes[cs[0]].action == Some(pt) then
      assert MatchAt(t, cs, pt, 0);
      Some(cs[0])
    else
      var r := FirstMatch(t, cs[1..], pt);
      assert forall y :: 1 <= y < |cs| ==> cs[y] == cs[1..][y - 1];
      assert r.Some? ==> exists x :: MatchAt(t, cs, pt, x) && cs[x] == r.value by {
        if r.Some? {
          var x :| MatchAt(t, cs[1..], pt, x) && cs[1..][x] == r.value;
          assert MatchAt(t, cs, pt, x + 1);
        }
      }
      r
  }

  /** A new node for `player` with action `pt` and the root as parent,
      appended to the arena; `listed` says whether the root's child list
      gets it too. */
  function AddChild(e: Engine, pt: Point, player: int, listed: bool): (e': Engine)
    requires EngineOk(e)
    ensures e'.board == e.board && e'.tree.root == e.tree.root
    ensures |e'.tree.nodes| == |e.tree.nodes| + 1
    ensures e'.tree.nodes[|e.tree.nodes|] == Node(player, [], Some(pt), Some(e.tree.root), 0, 0, None)
    ensures e'.tree.nodes[e.tree.root] == e.tree.nodes[e.tree.root].(children :=
      e.tree.nodes[e.tree.root].children + (if listed then [|e.tree.nodes|] else []))
    ensures forall i :: 0 <= i < |e.tree.nodes| && i != e.tree.root ==> e'.tree.nodes[i] == e.tree.nodes[i]
  {
    var t := e.tree;
    var root := t.nodes[t.root];
    var m := |t.nodes|;
    var nodes := t.nodes[t.root := root.(children := root.children + (if listed then [m] else []))]
      + [Node(player, [], Some(pt), Some(t.root), 0, 0, None)];
    Engine(e.board, Tree(nodes, t.root))
  }

  /** Every child listed in the grown tree still links back to its parent:
      old links are untouched, and the new node names the root. */
  lemma AddChildLinksBack(e: Engine, pt: Point, player: int, listed: bool, i: nat, x: nat)
    requires EngineOk(e)
    requires i < |AddChild(e, pt, player, listed).tree.nodes|
    requires x < |AddChild(e, pt, player, listed).tree.nodes[i].children|
    ensures var nodes := AddChild(e, pt, player, listed).tree.nodes;
      nodes[i].children[x] < |nodes| &&
      (nodes[nodes[i].children[x]].parent == Some(i) || nodes[nodes[i].children[x]].parent.None?)
  {
    var old_nodes := e.tree.nodes;
    var m := |old_nodes|;
    var root := e.tree.root;
    var cs := old_nodes[root].children;
    var nodes := AddChild(e, pt, player, listed).tree.nodes;
    assert i < m;
    if i == root && x == |cs| {
      assert nodes[i].children[x] == m;
    } else {
      assert nodes[i].children[x] == old_nodes[i].children[x];
      var c := old_nodes[i].children[x];
      assert i < c < m;
      assert nodes[c].parent == old_nodes[c].parent;
    }
  }

  lemma AddChildKeepsEngineOk(e: Engine, pt: Point, player: int, listed: bool)
    requires EngineOk(e) && InGrid(e.board, pt)
    ensures EngineOk(AddChild(e, pt, player, listed))
    ensures ReachesRoot(AddChild(e, pt, player, listed).tree, |e.tree.nodes|)
  {
    var nodes := AddChild(e, pt, player, listed).tree.nodes;
    assert ChildLinksBack(nodes) by {
      forall i, x | 0 <= i < |nodes| && 0 <= x < |nodes[i].children|
        ensures nodes[nodes[i].children[x]].parent == Some(i) || nodes[nodes[i].children[x]].parent.None?
      {
        AddChildLinksBack(e, pt, player, listed, i, x);
      }
    }
  }

  /** Add a node under the root, reconstruct the board from it and make it
      the root: the board gains exactly the node's stone, and the new root is
      the new node, no longer linked to a parent. */
  function PlayFromRoot(e: Engine, pt: Point, player: int, listed: bool): (e': Engine)
    requires EngineOk(e) && InGrid(e.board, pt)
    ensures EngineOk(e') && e'.board == Set(e.board, pt, player)
    ensures e'.tree.root == |e.tree.nodes| && |e'.tree.nodes| == |e.tree.nodes| + 1
    ensures e'.tree.nodes[|e.tree.nodes|] == Node(player, [], Some(pt), None, 0, 0, None)
    ensures e'.tree.nodes[e.tree.root] == e.tree.nodes[e.tree.root].(children :=
      e.tree.nodes[e.tree.root].children + (if listed then [|e.tree.nodes|] else []))
    ensures forall i :: 0 <= i < |e.tree.nodes| && i != e.tree.root ==> e'.tree.nodes[i] == e.tree.nodes[i]
  {
    var m := |e.tree.nodes|;
    AddChildKeepsEngineOk(e, pt, player, listed);
    var e1 := AddChild(e, pt, player, listed);
    var b := Reconstruct(e1, m).value;
    SetUnique(b, e.board, pt, player);
    Engine(b, Trim(e1.tree, m))
  }

  /** The branch for a matching child as written: trim first, then
      reconstruct the board of what is by then the root. */
  function FollowChild(e: Engine, c: nat): (e': Engine)
    requires EngineOk(e) && e.tree.root < c < |e.tree.nodes|
    ensures EngineOk(e') && |e'.board| == |e.board|
  {
    var t1 := Trim(e.tree, c);
    Engine(Reconstruct(Engine(e.board, t1), c).value, t1)
  }

  /** `receive_human_action(board)`: find the new stone (an assertion fails
      when there is none) and move the tree to it. */
  function ReceiveHumanAction(e: Engine, board: Grid): (r: Result<Engine>)
    requires EngineOk(e) && SameShape(board, e.board)
    ensures NewStone(board, e.board).None? <==> r == Err(AssertionFailed)
    ensures r.Ok? ==> EngineOk(r.value) && |r.value.board| == |e.board|
  {
    match NewStone(board, e.board)
    case None => Err(AssertionFailed)
    case Some(pt) =>
      var root := e.tree.nodes[e.tree.root];
      if |root.children| == 0 then Ok(PlayFromRoot(e, pt, Opponent(root.player), false))
      else match FirstMatch(e.tree, root.children, pt)
        case None => Ok(e)
        case Some(c) => Ok(FollowChild(e, c))
  }

  /** Without root children: the new root is the new node, for the player
      after the old root's, holding the new stone, and the board gains exactly
      that stone. The old root's child list stays empty. */
  lemma ReceiveIntoLeafRoot(e: Engine, board: Grid)
    requires EngineOk(e) && SameShape(board, e.board)
    requires NewStone(board, e.board).Some? && |e.tree.nodes[e.tree.root].children| == 0
    ensures var pt := NewStone(board, e.board).value;
      var m := |e.tree.nodes|;
      var next := Opponent(e.tree.nodes[e.tree.root].player);
      && ReceiveHumanAction(e, board).Ok?
      && ReceiveHumanAction(e, board).value.tree.root == m
      && ReceiveHumanAction(e, board).value.tree.nodes == e.tree.nodes + [Node(next, [], Some(pt), None, 0, 0, None)]
      && ReceiveHumanAction(e, board).value.board == Set(e.board, pt, next)
  {
    var pt := NewStone(board, e.board).value;
    var m := |e.tree.nodes|;
    var next := Opponent(e.tree.nodes[e.tree.root].player);
    var e' := ReceiveHumanAction(e, board).value;
    assert e'.tree.nodes == e.tree.nodes + [Node(next, [], Some(pt), None, 0, 0, None)];
  }

  /** A root child holding the new stone becomes the root; when no child does,
      nothing changes. */
  lemma ReceiveFollowsMatch(e: Engine, board: Grid)
    requires EngineOk(e) && SameShape(board, e.board)
    requires NewStone(board, e.board).Some? && |e.tree.nodes[e.tree.root].children| > 0
    ensures var pt := NewStone(board, e.board).value;
      var cs := e.tree.nodes[e.tree.root].children;
      && (FirstMatch(e.tree, cs, pt).None? ==> ReceiveHumanAction(e, board) == Ok(e))
      && (FirstMatch(e.tree, cs, pt).Some? ==>
            && ReceiveHumanAction(e, board).Ok?
            && ReceiveHumanAction(e, board).value.tree == Trim(e.tree, FirstMatch(e.tree, cs, pt).value)
            && e.tree.nodes[FirstMatch(e.tree, cs, pt).value].action == Some(pt))
  {
  }

  /** As written, following a matching child keeps the old board: the new
      stone never reaches `cur_board`, which still shows the cell as it was. */
  lemma ReceiveDropsNewStone(e: Engine, board: Grid)
    requires EngineOk(e) && SameShape(board, e.board)
    requires NewStone(board, e.board).Some? && |e.tree.nodes[e.tree.root].children| > 0
    requires FirstMatch(e.tree, e.tree.nodes[e.tree.root].children, NewStone(board, e.board).value).Some?
    ensures var pt := NewStone(board, e.board).value;
      && ReceiveHumanAction(e, board).Ok?
      && ReceiveHumanAction(e, board).value.board == e.board
      && At(ReceiveHumanAction(e, board).value.board, pt) < At(board, pt)
  {
    NewStoneMeaning(board, e.board);
  }

  /** The matching-child branch with the board reconstructed before trimming,
      so that the new root's action is written on it. */
  function FollowChildFixed(e: Engine, c: nat): (e': Engine)
    requires EngineOk(e) && e.tree.root < c < |e.tree.nodes| && e.tree.nodes[c].action.Some?
    requires e.tree.nodes[c].parent == Some(e.tree.root)
    ensures EngineOk(e') && e'.tree == Trim(e.tree, c)
    ensures e'.board == Set(e.board, e.tree.nodes[c].action.value, e.tree.nodes[c].player)
  {
    assert ReachesRoot(e.tree, c);
    var b := Reconstruct(e, c).value;
    SetUnique(b, e.board, e.tree.nodes[c].action.value, e.tree.nodes[c].player);
    Engine(b, Trim(e.tree, c))
  }

  /** `receive_human_action` with the matching-child branch corrected. */
  function ReceiveHumanActionFixed(e: Engine, board: Grid): (r: Result<Engine>)
    requires EngineOk(e) && SameShape(board, e.board)
    ensures NewStone(board, e.board).None? <==> r == Err(AssertionFailed)
    ensures r.Ok? ==> EngineOk(r.value) && |r.value.board| == |e.board|
  {
    match NewStone(board, e.board)
    case None => Err(AssertionFailed)
    case Some(pt) =>
      var root := e.tree.nodes[e.tree.root];
      if |root.children| == 0 then Ok(PlayFromRoot(e, pt, Opponent(root.player), false))
      else match FirstMatch(e.tree, root.children, pt)
        case None => Ok(e)
        case Some(c) =>
          MatchIsChildOfRoot(e, root.children, pt);
          Ok(FollowChildFixed(e, c))
  }

  /** A child listed under the root still names the root as its parent. */
  lemma MatchIsChildOfRoot(e: Engine, cs: seq<nat>, pt: Point)
    requires EngineOk(e) && cs == e.tree.nodes[e.tree.root].children
    requires FirstMatch(e.tree, cs, pt).Some?
    ensures var c := FirstMatch(e.tree, cs, pt).value;
      e.tree.root < c < |e.tree.nodes| && e.tree.nodes[c].parent == Some(e.tree.root)
      && e.tree.nodes[c].action == Some(pt)
  {
    var x :| MatchAt(e.tree, cs, pt, x) && cs[x] == FirstMatch(e.tree, cs, pt).value;
  }

  /** Whenever the tree moves, the corrected version's board is the old board
      with the new stone written in for the new root's player, and nothing else
      changes. */
  lemma ReceiveFixedKeepsNewStone(e: Engine, board: Grid)
    requires EngineOk(e) && SameShape(board, e.board)
    requires ReceiveHumanActionFixed(e, board).Ok?
    requires ReceiveHumanActionFixed(e, board).value.tree.root != e.tree.root
    ensures var e' := ReceiveHumanActionFixed(e, board).value;
      var pt := NewStone(board, e.board).value;
      e'.board == Set(e.board, pt, e'.tree.nodes[e'.tree.root].player)
  {
    var pt := NewStone(board, e.board).value;
    var root := e.tree.nodes[e.tree.root];
    if |root.children| > 0 {
      MatchIsChildOfRoot(e, root.children, pt);
    }
  }

  // ---------------------------------------------------------------------
  // model, up to the search; reset; the final choice

  /** `reset()`: the strategy forgets its board and tree. */
  function Reset(): Option<Engine> {
    None
  }

  /** The opening of `model(cur_board, ai_player)`: on the first call keep a
      copy of the board and start a tree whose root belongs to the human; on
      later calls absorb the human's move into the existing tree (the board
      argument is only compared, the engine keeps its own), using the
      corrected matching-child branch. */
  function Prepare(s: Option<Engine>, board: Grid, aiPlayer: int): (r: Result<Engine>)
    requires IsSquare(board) && |board| > 0
    requires s.Some? ==> EngineOk(s.value) && |board| == |s.value.board|
    ensures r.Ok? ==> EngineOk(r.value)
    ensures s.None? ==> r.Ok? && r.value.board == board && |r.value.tree.nodes| == 1
                        && r.value.tree.nodes[r.value.tree.root].player == Opponent(aiPlayer)
    ensures s.Some? ==> (r.Err? <==> NewStone(board, s.value.board).None?)
  {
    match s
    case None => Ok(Engine(board, NewTree(Opponent(aiPlayer))))
    case Some(e) => ReceiveHumanActionFixed(e, board)
  }

  /** After `reset` the next call starts over: the engine's board is the one
      passed in, and the tree is a single root for the human, so the rules
      then run for the AI. */
  lemma ResetStartsOver(board: Grid, aiPlayer: int)
    requires IsSquare(board) && |board| > 0 && (aiPlayer == 1 || aiPlayer == 2)
    ensures Prepare(Reset(), board, aiPlayer).Ok?
    ensures var e := Prepare(Reset(), board, aiPlayer).value;
      && e.board == board && |e.tree.nodes| == 1 && e.tree.root == 0
      && e.tree.nodes[0].player != aiPlayer && Opponent(e.tree.nodes[0].player) == aiPlayer
      && IsLeaf(e.tree, 0)
  {
  }

  /** The rule short-circuit of `model`: run rules 1-4 for the player after the
      root's; if one fires, add its move as a new child of the root (this time
      appended to the root's children), reconstruct the board from it and make
      it the root. Returns the move, or None when the search has to run. */
  function RuleShortCircuit(e: Engine, k: nat): (r: (Engine, Option<Point>))
    requires EngineOk(e)
    ensures EngineOk(r.0)
    ensures r.1 == RuleStrategy.Rules1To4(e.board, Opponent(e.tree.nodes[e.tree.root].player), k)
    ensures r.1.None? ==> r.0 == e
  {
    var next := Opponent(e.tree.nodes[e.tree.root].player);
    match RuleStrategy.Rules1To4(e.board, next, k)
    case None => (e, None)
    case Some(res) => (PlayFromRoot(e, res, next, true), Some(res))
  }

  /** When a rule fires, the engine's board gains exactly the AI's stone on a
      cell that was empty, the new root is a new node for the AI holding that
      move, and the old root lists it as its last child. */
  lemma RuleShortCircuitPlays(e: Engine, k: nat)
    requires EngineOk(e) && RuleShortCircuit(e, k).1.Some?
    ensures var (e', move) := RuleShortCircuit(e, k);
      var next := Opponent(e.tree.nodes[e.tree.root].player);
      var m := |e.tree.nodes|;
      && InGrid(e.board, move.value) && At(e.board, move.value) == 0
      && e'.board == Set(e.board, move.value, next)
      && e'.tree.root == m && |e'.tree.nodes| == m + 1
      && e'.tree.nodes[m] == Node(next, [], move, None, 0, 0, None)
      && e'.tree.nodes[e.tree.root].children == e.tree.nodes[e.tree.root].children + [m]
  {
  }

  /** When the AI has four in a row with an open end, the short-circuit plays
      the winning stone: the AI's board then shows five. */
  lemma RuleShortCircuitWins(e: Engine, k: nat)
    requires EngineOk(e)
    requires RuleStrategy.Rule1(e.board, Opponent(e.tree.nodes[e.tree.root].player)).Some?
    ensures var (e', move) := RuleShortCircuit(e, k);
      var next := Opponent(e.tree.nodes[e.tree.root].player);
      && move == RuleStrategy.Rule1(e.board, next)
      && Scanner.CheckWinner(e'.board, next, Scanner.WIN_LENGTH).winner == Some(next)
  {
    RuleShortCircuitPlays(e, k);
  }

  /** The decision after the search: the root child with the best score
      becomes the root and its move is played. A root without children makes
      the reconstruction walk off the tree. */
  function Decide(e: Engine, formula: (nat, nat, nat) -> real, k: nat): (r: Result<(Engine, Option<Point>)>)
    requires EngineOk(e)
    ensures IsLeaf(e.tree, e.tree.root) ==> r == Err(DetachedNode)
    ensures (forall x :: 0 <= x < |e.tree.nodes[e.tree.root].children| ==> e.tree.nodes[e.tree.nodes[e.tree.root].children[x]].action.Some?)
      ==> (r.Ok? <==> !IsLeaf(e.tree, e.tree.root))
    ensures r.Ok? ==> EngineOk(r.value.0) && r.value.0.tree.root in e.tree.nodes[e.tree.root].children
    ensures r.Ok? ==> r.value.1 == e.tree.nodes[r.value.0.tree.root].action
    ensures r.Ok? ==> |r.value.0.tree.nodes| == |e.tree.nodes|
    ensures r.Ok? ==> forall i :: 0 <= i < |e.tree.nodes| && i != r.value.0.tree.root ==> r.value.0.tree.nodes[i] == e.tree.nodes[i]
    ensures r.Ok? ==> forall x :: 0 <= x < |e.tree.nodes[e.tree.root].children| ==>
      ChildScore(e.tree, e.tree.root, e.tree.nodes[e.tree.root].children[x], formula)
      <= ChildScore(e.tree, e.tree.root, r.value.0.tree.root, formula)
    ensures r.Ok? && r.value.1.Some? ==>
      r.value.0.board == Set(e.board, r.value.1.value, e.tree.nodes[r.value.0.tree.root].player)
  {
    match GetChildMaxUcb(e.tree, e.tree.root, formula, k)
    case None => Err(DetachedNode)
    case Some(c) =>
      assert e.tree.nodes[c].parent == Some(e.tree.root) by {
        var x :| 0 <= x < |e.tree.nodes[e.tree.root].children| && e.tree.nodes[e.tree.root].children[x] == c;
      }
      assert ReachesRoot(e.tree, c);
      match Reconstruct(e, c)
      case Err(err) => Err(err)
      case Ok(b) => Ok((Engine(b, Trim(e.tree, c)), e.tree.nodes[c].action))
  }

  /** `model(cur_board, ai_player)` from start to finish: absorb the board,
      try rules 1-4, and otherwise run one search pass per round (the source
      runs SIMULATION_TIMES of them) and take the best root child. `k` is the
      rules' random selection and `kDecide` the one of the final choice. The
      engine returned is the state kept for the next call. */
  function Model(s: Option<Engine>, board: Grid, aiPlayer: int, k: nat, formula: (nat, nat, nat) -> real,
                 rounds: seq<Round>, kDecide: nat): (r: Result<(Engine, Option<Point>)>)
    requires IsSquare(board) && |board| > 0
    requires s.Some? ==> EngineOk(s.value) && |board| == |s.value.board|
    ensures r.Ok? ==> EngineOk(r.value.0)
    ensures Prepare(s, board, aiPlayer).Err? ==> r.Err?
  {
    match Prepare(s, board, aiPlayer)
    case Err(err) => Err(err)
    case Ok(e) =>
      var (e1, move) := RuleShortCircuit(e, k);
      if move.Some? then Ok((e1, move))
      else match Search(e1, formula, rounds)
        case Err(err) => Err(err)
        case Ok(e2) => Decide(e2, formula, kDecide)
  }

  /** A rule that fires decides the move: no search runs, the move is the
      rules' answer for the player after the root, and it lands on an empty
      cell of the engine's board. */
  lemma ModelRuleFirst(s: Option<Engine>, board: Grid, aiPlayer: int, k: nat, formula: (nat, nat, nat) -> real,
                       rounds: seq<Round>, kDecide: nat)
    requires IsSquare(board) && |board| > 0
    requires s.Some? ==> EngineOk(s.value) && |board| == |s.value.board|
    requires Prepare(s, board, aiPlayer).Ok?
    requires var e := Prepare(s, board, aiPlayer).value;
      RuleStrategy.Rules1To4(e.board, Opponent(e.tree.nodes[e.tree.root].player), k).Some?
    ensures var e := Prepare(s, board, aiPlayer).value;
      var move := RuleStrategy.Rules1To4(e.board, Opponent(e.tree.nodes[e.tree.root].player), k);
      && Model(s, board, aiPlayer, k, formula, rounds, kDecide).Ok?
      && Model(s, board, aiPlayer, k, formula, rounds, kDecide).value.1 == move
      && InGrid(e.board, move.value) && At(e.board, move.value) == 0
      && Model(s, board, aiPlayer, k, formula, rounds, kDecide).value.0.board == Set(e.board, move.value, Opponent(e.tree.nodes[e.tree.root].player))
  {
    RuleShortCircuitPlays(Prepare(s, board, aiPlayer).value, k);
  }

  /** Without a rule the search decides: the old root has been visited once
      per round, the move is the action of one of its children, and that
      child is the new root. */
  lemma ModelSearches(s: Option<Engine>, board: Grid, aiPlayer: int, k: nat, formula: (nat, nat, nat) -> real,
                      rounds: seq<Round>, kDecide: nat)
    requires IsSquare(board) && |board| > 0
    requires s.Some? ==> EngineOk(s.value) && |board| == |s.value.board|
    requires Prepare(s, board, aiPlayer).Ok?
    requires var e := Prepare(s, board, aiPlayer).value;
      RuleStrategy.Rules1To4(e.board, Opponent(e.tree.nodes[e.tree.root].player), k).None?
    requires Model(s, board, aiPlayer, k, formula, rounds, kDecide).Ok?
    ensures var e := Prepare(s, board, aiPlayer).value;
      var (e', move) := Model(s, board, aiPlayer, k, formula, rounds, kDecide).value;
      && e.tree.root < |e'.tree.nodes| && e'.tree.root != e.tree.root
      && e'.tree.nodes[e.tree.root].visits == e.tree.nodes[e.tree.root].visits + |rounds|
      && e'.tree.root in e'.tree.nodes[e.tree.root].children
      && move == e'.tree.nodes[e'.tree.root].action
    ensures var e := Prepare(s, board, aiPlayer).value;
      var searched := Search(e, formula, rounds).value.tree;
      var (e', move) := Model(s, board, aiPlayer, k, formula, rounds, kDecide).value;
      && Search(e, formula, rounds).Ok?
      && (forall x :: 0 <= x < |searched.nodes[e.tree.root].children| ==>
            ChildScore(searched, e.tree.root, searched.nodes[e.tree.root].children[x], formula)
            <= ChildScore(searched, e.tree.root, e'.tree.root, formula))
      && (move.Some? ==> e'.board == Set(e.board, move.value, e'.tree.nodes[e'.tree.root].player))
  {
    var e := Prepare(s, board, aiPlayer).value;
    SearchThenDecide(e, formula, rounds, kDecide);
  }

  /** The search followed by the decision, on an engine the rules left alone. */
  lemma SearchThenDecide(e: Engine, formula: (nat, nat, nat) -> real, rounds: seq<Round>, kDecide: nat)
    requires EngineOk(e) && Search(e, formula, rounds).Ok?
    requires Decide(Search(e, formula, rounds).value, formula, kDecide).Ok?
    ensures var (e', move) := Decide(Search(e, formula, rounds).value, formula, kDecide).value;
      && e.tree.root < |e'.tree.nodes| && e'.tree.root != e.tree.root
      && e'.tree.nodes[e.tree.root].visits == e.tree.nodes[e.tree.root].visits + |rounds|
      && e'.tree.root in e'.tree.nodes[e.tree.root].children
      && move == e'.tree.nodes[e'.tree.root].action
    ensures var searched := Search(e, formula, rounds).value.tree;
      var (e', move) := Decide(Search(e, formula, rounds).value, formula, kDecide).value;
      && (forall x :: 0 <= x < |searched.nodes[e.tree.root].children| ==>
            ChildScore(searched, e.tree.root, searched.nodes[e.tree.root].children[x], formula)
            <= ChildScore(searched, e.tree.root, e'.tree.root, formula))
      && (move.Some? ==> e'.board == Set(e.board, move.value, e'.tree.nodes[e'.tree.root].player))
  {
    var e2 := Search(e, formula, rounds).value;
    var d := Decide(e2, formula, kDecide).value;
    assert d.0.tree.root in e2.tree.nodes[e2.tree.root].children;
    assert e2.tree.root < d.0.tree.root;
  }
}
