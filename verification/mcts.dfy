/** The discrete bookkeeping of `MCTSStrategy` (ai_strategy/mcts_strategy.py):
    the search tree, re-rooting, board reconstruction, expansion, the win
    latch, back-propagation, UCB selection, absorbing the opponent's move and
    the rule short-circuit. Nodes live in an arena (a sequence indexed by node
    id); a node's parent has a smaller id and its children larger ids, since
    nodes are only ever created below an existing one. */
module Mcts {
  import opened Basics
  import opened Grid
  import opened Scanner
  import RandomStrategy
  import RuleStrategy

  /** `Node`: `ifWin` is None until the win check has run, then whether the
      node's board was decided (a win or a draw). The root of a new tree has
      no action (the empty list of the source). */
  datatype Node = Node(
    player: int,
    children: seq<nat>,
    action: Option<Point>,
    parent: Option<nat>,
    visits: nat,
    wins: nat,
    ifWin: Option<bool>)

  function NewNode(player: int): Node {
    Node(player, [], None, None, 0, 0, None)
  }

  /** `Tree`: the arena and the id of the current root. */
  datatype Tree = Tree(nodes: seq<Node>, root: nat)

  function NewTree(player: int): Tree {
    Tree([NewNode(player)], 0)
  }

  /** The strategy's cross-turn state: `cur_board` and `tree`. */
  datatype Engine = Engine(board: Grid, tree: Tree)

  predicate ParentsBelow(nodes: seq<Node>) {
    forall i :: 0 <= i < |nodes| && nodes[i].parent.Some? ==> nodes[i].parent.value < i
  }

  predicate ChildrenAbove(nodes: seq<Node>) {
    forall i, x :: 0 <= i < |nodes| && 0 <= x < |nodes[i].children| ==> i < nodes[i].children[x] < |nodes|
  }

  /** A node never has more wins than visits. */
  predicate CountersOk(nodes: seq<Node>) {
    forall i :: 0 <= i < |nodes| ==> nodes[i].wins <= nodes[i].visits
  }

  /** A child names the node that lists it as parent, unless it has since
      been made a root (trim clears the link but leaves the old list alone). */
  predicate ChildLinksBack(nodes: seq<Node>)
    requires ChildrenAbove(nodes)
  {
    forall i, x :: 0 <= i < |nodes| && 0 <= x < |nodes[i].children| ==>
      nodes[nodes[i].children[x]].parent == Some(i) || nodes[nodes[i].children[x]].parent.None?
  }

  /** Only the root and former roots, all created before it, lack a parent. */
  predicate LaterNodesLinked(t: Tree) {
    forall i :: t.root < i < |t.nodes| ==> t.nodes[i].parent.Some?
  }

  predicate TreeOk(t: Tree) {
    && t.root < |t.nodes|
    && t.nodes[t.root].parent.None?
    && ParentsBelow(t.nodes)
    && ChildrenAbove(t.nodes)
    && ChildLinksBack(t.nodes)
    && LaterNodesLinked(t)
    && CountersOk(t.nodes)
  }

  predicate ActionsOnBoard(g: Grid, nodes: seq<Node>) {
    forall i :: 0 <= i < |nodes| && nodes[i].action.Some? ==> InGrid(g, nodes[i].action.value)
  }

  predicate EngineOk(e: Engine) {
    IsSquare(e.board) && |e.board| > 0 && TreeOk(e.tree) && ActionsOnBoard(e.board, e.tree.nodes)
  }

  predicate IsLeaf(t: Tree, id: nat)
    requires id < |t.nodes|
  {
    |t.nodes[id].children| == 0
  }

  // ---------------------------------------------------------------------
  // Tree.trim

  /** `Tree.trim(node)`: the node becomes the root and forgets its parent. It
      stays listed among its former parent's children. */
  function Trim(t: Tree, id: nat): (r: Tree)
    requires id < |t.nodes|
    ensures r.root == id && |r.nodes| == |t.nodes|
    ensures r.nodes[id].parent.None?
    ensures r.nodes[id] == t.nodes[id].(parent := None)
    ensures forall i :: 0 <= i < |t.nodes| && i != id ==> r.nodes[i] == t.nodes[i]
    ensures TreeOk(t) && t.root <= id ==> TreeOk(r)
  {
    Tree(t.nodes[id := t.nodes[id].(parent := None)], id)
  }

  // ---------------------------------------------------------------------
  // reconstruct_board

  /** Following parent links from `id` meets the root. */
  predicate ReachesRoot(t: Tree, id: nat)
    requires ParentsBelow(t.nodes) && id < |t.nodes|
    decreases id
  {
    id == t.root || (t.nodes[id].parent.Some? && ReachesRoot(t, t.nodes[id].parent.value))
  }

  /** `reconstruct_board(node)`. The walk up to the root collects `node`
      itself once per step rather than each ancestor, so only the node's own
      action is written on a copy of `cur_board`. A walk that falls off the
      top raises, and so does unpacking a missing action. */
  function Reconstruct(e: Engine, id: nat): (r: Result<Grid>)
    requires EngineOk(e) && id < |e.tree.nodes|
    ensures r.Ok? ==> IsSquare(r.value) && |r.value| == |e.board|
    ensures id == e.tree.root ==> r == Ok(e.board)
    ensures !ReachesRoot(e.tree, id) ==> r == Err(DetachedNode)
    ensures id != e.tree.root && ReachesRoot(e.tree, id) ==> (r.Ok? <==> e.tree.nodes[id].action.Some?)
    ensures id != e.tree.root && r.Ok? ==>
      var a := e.tree.nodes[id].action.value;
      At(r.value, a) == e.tree.nodes[id].player
      && forall q :: InGrid(e.board, q) && q != a ==> At(r.value, q) == At(e.board, q)
  {
    var n := e.tree.nodes[id];
    if id == e.tree.root then Ok(e.board)
    else if !ReachesRoot(e.tree, id) then Err(DetachedNode)
    else match n.action
      case None => Err(NoAction)
      case Some(a) => Ok(Set(e.board, a, n.player))
  }

  /** The board the docstring describes: every action on the way down from the
      root replayed in turn. */
  function Replay(e: Engine, id: nat): (g: Grid)
    requires EngineOk(e) && id < |e.tree.nodes| && ReachesRoot(e.tree, id)
    ensures IsSquare(g) && |g| == |e.board|
    decreases id
  {
    if id == e.tree.root then e.board
    else
      var below := Replay(e, e.tree.nodes[id].parent.value);
      match e.tree.nodes[id].action
      case None => below
      case Some(a) => Set(below, a, e.tree.nodes[id].player)
  }

  /** For the root and its children the reconstruction is the replay. */
  lemma ReconstructIsReplayNearRoot(e: Engine, id: nat)
    requires EngineOk(e) && id < |e.tree.nodes|
    requires id == e.tree.root || (e.tree.nodes[id].parent == Some(e.tree.root) && e.tree.nodes[id].action.Some?)
    ensures ReachesRoot(e.tree, id) && Reconstruct(e, id) == Ok(Replay(e, id))
  {
  }

  /** Two levels down, the parent's move is lost: on a grandchild of the root
      whose parent moved on a cell that is empty in `cur_board`, the
      reconstruction leaves that cell empty while the replay does not. */
  lemma ReconstructDropsParentMove(e: Engine, id: nat)
    requires EngineOk(e) && id < |e.tree.nodes|
    requires e.tree.nodes[id].parent.Some?
    requires var p := e.tree.nodes[id].parent.value;
      && e.tree.nodes[p].parent == Some(e.tree.root) && p != e.tree.root
      && e.tree.nodes[p].action.Some? && e.tree.nodes[id].action.Some?
      && e.tree.nodes[p].action != e.tree.nodes[id].action
      && At(e.board, e.tree.nodes[p].action.value) == 0 && e.tree.nodes[p].player != 0
    ensures ReachesRoot(e.tree, id) && Reconstruct(e, id).Ok?
    ensures var a := e.tree.nodes[e.tree.nodes[id].parent.value].action.value;
      At(Reconstruct(e, id).value, a) == 0 && At(Replay(e, id), a) != 0
  {
    var p := e.tree.nodes[id].parent.value;
    var a := e.tree.nodes[p].action.value;
    assert ReachesRoot(e.tree, p);
    assert Replay(e, p) == Set(e.board, a, e.tree.nodes[p].player);
  }

  // ---------------------------------------------------------------------
  // set_node_win

  /** `set_node_win(node)`: a latch. Once set it never changes; otherwise it
      records whether check_winner, for the node's player on the
      reconstructed board, returns anything (a win or a draw). */
  function SetNodeWin(e: Engine, id: nat): (r: Result<Engine>)
    requires EngineOk(e) && id < |e.tree.nodes|
    ensures e.tree.nodes[id].ifWin.Some? ==> r == Ok(e)
    ensures r.Ok? ==> EngineOk(r.value) && r.value.board == e.board && r.value.tree.root == e.tree.root
    ensures r.Ok? ==> |r.value.tree.nodes| == |e.tree.nodes| && r.value.tree.nodes[id].ifWin.Some?
    ensures r.Ok? ==> r.value.tree.nodes[id] == e.tree.nodes[id].(ifWin := r.value.tree.nodes[id].ifWin)
    ensures r.Ok? ==> forall i :: 0 <= i < |e.tree.nodes| && i != id ==> r.value.tree.nodes[i] == e.tree.nodes[i]
    ensures e.tree.nodes[id].ifWin.None? && Reconstruct(e, id).Ok? ==>
      r.Ok? && (r.value.tree.nodes[id].ifWin == Some(true)
                <==> CheckWinner(Reconstruct(e, id).value, e.tree.nodes[id].player, WIN_LENGTH).winner.Some?)
    ensures Reconstruct(e, id).Err? && e.tree.nodes[id].ifWin.None? ==> r.Err?
  {
    var n := e.tree.nodes[id];
    if n.ifWin.Some? then Ok(e)
    else match Reconstruct(e, id)
      case Err(err) => Err(err)
      case Ok(b) =>
        var winner := CheckWinner(b, n.player, WIN_LENGTH).winner;
        Ok(Engine(e.board, Tree(e.tree.nodes[id := n.(ifWin := Some(winner.Some?))], e.tree.root)))
  }

  /** Running the check twice is the same as running it once. */
  lemma SetNodeWinIdempotent(e: Engine, id: nat)
    requires EngineOk(e) && id < |e.tree.nodes| && SetNodeWin(e, id).Ok?
    ensures SetNodeWin(SetNodeWin(e, id).value, id) == SetNodeWin(e, id)
  {
  }

  // ---------------------------------------------------------------------
  // expansion

  /** The children `expansion` creates under `id`: one per empty cell of the
      root's board `cur_board` (not of the node's own board), row by row,
      each for the other player. */
  function NewChildren(cells: seq<Point>, player: int, id: nat): seq<Node> {
    seq(|cells|, t requires 0 <= t < |cells| => Node(Opponent(player), [], Some(cells[t]), Some(id), 0, 0, None))
  }

  /** The ids `from`, `from + 1`, ... of `count` new nodes. */
  function IdRange(from: nat, count: nat): seq<nat> {
    seq(count, t requires 0 <= t < count => from + t)
  }

  /** The arena after `expansion` has created one child of `id` per cell of
      `cells`: they take the next free ids, are listed as `id`'s children in
      order, and nothing else changes. */
  function Grow(e: Engine, id: nat, cells: seq<Point>): (e': Engine)
    requires id < |e.tree.nodes|
    ensures e'.board == e.board && e'.tree.root == e.tree.root
    ensures |e'.tree.nodes| == |e.tree.nodes| + |cells|
    ensures e'.tree.nodes[id] == e.tree.nodes[id].(children := IdRange(|e.tree.nodes|, |cells|))
    ensures forall i :: 0 <= i < |e.tree.nodes| && i != id ==> e'.tree.nodes[i] == e.tree.nodes[i]
    ensures forall t :: 0 <= t < |cells| ==>
      e'.tree.nodes[|e.tree.nodes| + t] == Node(Opponent(e.tree.nodes[id].player), [], Some(cells[t]), Some(id), 0, 0, None)
  {
    var before := e.tree.nodes;
    var nodes := before[id := before[id].(children := IdRange(|before|, |cells|))]
      + NewChildren(cells, before[id].player, id);
    assert forall t :: 0 <= t < |cells| ==> nodes[|before| + t] == NewChildren(cells, before[id].player, id)[t];
    Engine(e.board, Tree(nodes, e.tree.root))
  }

  /** Node `i` of the grown arena: the expanded node with its new child list,
      an untouched old node, or one of the new children. */
  lemma GrowNodeAt(e: Engine, id: nat, cells: seq<Point>, i: nat)
    requires id < |e.tree.nodes| && i < |Grow(e, id, cells).tree.nodes|
    ensures var m := |e.tree.nodes|;
      Grow(e, id, cells).tree.nodes[i] ==
        if i == id then e.tree.nodes[id].(children := IdRange(m, |cells|))
        else if i < m then e.tree.nodes[i]
        else Node(Opponent(e.tree.nodes[id].player), [], Some(cells[i - m]), Some(id), 0, 0, None)
  {
  }

  /** A child listed in the grown arena links back to the node listing it. */
  lemma GrowLinksBack(e: Engine, id: nat, cells: seq<Point>, i: nat, x: nat)
    requires EngineOk(e) && id < |e.tree.nodes|
    requires i < |Grow(e, id, cells).tree.nodes| && x < |Grow(e, id, cells).tree.nodes[i].children|
    ensures var nodes := Grow(e, id, cells).tree.nodes;
      i < nodes[i].children[x] < |nodes|
      && (nodes[nodes[i].children[x]].parent == Some(i) || nodes[nodes[i].children[x]].parent.None?)
  {
    var m := |e.tree.nodes|;
    var nodes := Grow(e, id, cells).tree.nodes;
    GrowNodeAt(e, id, cells, i);
    assert i < m;
    var c := nodes[i].children[x];
    if i == id {
      assert c == m + x;
      GrowNodeAt(e, id, cells, c);
    } else {
      assert c == e.tree.nodes[i].children[x];
      assert i < c < m;
      GrowNodeAt(e, id, cells, c);
    }
  }

  /** The new children sit above every existing id, name `id` as parent and
      have no children or counts of their own, so the tree invariant survives. */
  lemma GrowKeepsTreeOk(e: Engine, id: nat, cells: seq<Point>)
    requires EngineOk(e) && id < |e.tree.nodes|
    ensures TreeOk(Grow(e, id, cells).tree)
  {
    var t := Grow(e, id, cells).tree;
    var nodes := t.nodes;
    forall i | 0 <= i < |nodes|
      ensures nodes[i].parent.Some? ==> nodes[i].parent.value < i
      ensures nodes[i].wins <= nodes[i].visits
      ensures t.root < i ==> nodes[i].parent.Some?
    {
      GrowNodeAt(e, id, cells, i);
    }
    assert ChildrenAbove(nodes) && ChildLinksBack(nodes) by {
      forall i, x | 0 <= i < |nodes| && 0 <= x < |nodes[i].children|
        ensures i < nodes[i].children[x] < |nodes|
        ensures nodes[nodes[i].children[x]].parent == Some(i) || nodes[nodes[i].children[x]].parent.None?
      {
        GrowLinksBack(e, id, cells, i, x);
      }
    }
    GrowNodeAt(e, id, cells, t.root);
  }

  lemma GrowKeepsEngineOk(e: Engine, id: nat, cells: seq<Point>)
    requires EngineOk(e) && id < |e.tree.nodes|
    requires forall t :: 0 <= t < |cells| ==> InGrid(e.board, cells[t])
    ensures EngineOk(Grow(e, id, cells))
  {
    GrowKeepsTreeOk(e, id, cells);
    var m := |e.tree.nodes|;
    var nodes := Grow(e, id, cells).tree.nodes;
    assert forall i :: m <= i < |nodes| ==> nodes[i] == nodes[m + (i - m)];
  }

  /** `expansion(node)`; `k` is the selection of the final `random.choice`.
      Returns the updated engine and the node to simulate from. */
  function Expansion(e: Engine, id: nat, k: nat): (r: Result<(Engine, nat)>)
    requires EngineOk(e) && id < |e.tree.nodes|
    ensures |e.tree.nodes[id].children| > 0 ==> r == Ok((e, id))
    ensures r.Ok? ==> EngineOk(r.value.0) && r.value.0.board == e.board && r.value.0.tree.root == e.tree.root
    ensures r.Ok? ==> |e.tree.nodes| <= |r.value.0.tree.nodes| && r.value.1 < |r.value.0.tree.nodes|
    ensures r.Ok? ==> forall i :: 0 <= i < |e.tree.nodes| && i != id ==> r.value.0.tree.nodes[i] == e.tree.nodes[i]
  {
    if |e.tree.nodes[id].children| > 0 then Ok((e, id))
    else match SetNodeWin(e, id)
      case Err(err) => Err(err)
      case Ok(e1) =>
        if e1.tree.nodes[id].ifWin == Some(true) then Ok((e1, id))
        else
          var cells := RandomStrategy.EmptyCells(e1.board);
          var m := |e1.tree.nodes|;
          if |cells| == 0 then Err(EmptyChoice)
          else
            GrowKeepsEngineOk(e1, id, cells);
            Ok((Grow(e1, id, cells), Choose(IdRange(m, |cells|), k)))
  }

  /** What a real expansion does: when the node had no children and its board
      is not decided, it gains exactly one new child per empty cell of
      `cur_board` in row-major order, each for the other player, with the node
      as parent, and the node returned is one of them. A decided node gains none. */
  lemma ExpansionChildren(e: Engine, id: nat, k: nat)
    requires EngineOk(e) && id < |e.tree.nodes| && |e.tree.nodes[id].children| == 0
    requires Expansion(e, id, k).Ok?
    ensures var (e', chosen) := Expansion(e, id, k).value;
      var m := |e.tree.nodes|;
      var cells := RandomStrategy.EmptyCells(e.board);
      && e'.tree.nodes[id].ifWin.Some?
      && (e'.tree.nodes[id].ifWin == Some(true) ==> e'.tree.nodes == e.tree.nodes[id := e'.tree.nodes[id]] && chosen == id)
      && (e'.tree.nodes[id].ifWin == Some(false) ==>
            && |e'.tree.nodes| == m + |cells|
            && e'.tree.nodes[id].children == IdRange(m, |cells|)
            && m <= chosen < m + |cells|
            && forall t :: 0 <= t < |cells| ==>
                 e'.tree.nodes[m + t] == Node(Opponent(e.tree.nodes[id].player), [], Some(cells[t]), Some(id), 0, 0, None))
  {
  }

  /** A board with no empty cell cannot be expanded from an undecided node:
      `random.choice` is handed an empty list. */
  lemma ExpansionOnFullBoardFails(e: Engine, id: nat, k: nat)
    requires EngineOk(e) && id < |e.tree.nodes| && |e.tree.nodes[id].children| == 0
    requires Full(e.board) && e.tree.nodes[id].ifWin == Some(false)
    ensures Expansion(e, id, k) == Err(EmptyChoice)
  {
    RandomStrategy.EmptyCellsNoneIffFull(e.board);
  }

  // ---------------------------------------------------------------------
  // backpropagation

  /** One visit, and one win when the outcome names this node's player (a
      draw, 0, and an undecided playout, None, credit nobody). */
  function Credit(n: Node, winner: Option<int>): Node {
    n.(visits := n.visits + 1,
       wins := n.wins + (if winner.Some? && winner.value != 0 && n.player == winner.value then 1 else 0))
  }

  /** The ids met walking parent links from `id` until there is no parent. */
  function PathUp(nodes: seq<Node>, id: nat): set<nat>
    requires ParentsBelow(nodes) && id < |nodes|
    decreases id
  {
    {id} + (if nodes[id].parent.Some? then PathUp(nodes, nodes[id].parent.value) else {})
  }

  lemma {:induction false} PathUpBounded(nodes: seq<Node>, id: nat)
    requires ParentsBelow(nodes) && id < |nodes|
    ensures forall i :: i in PathUp(nodes, id) ==> i <= id
    decreases id
  {
    if nodes[id].parent.Some? {
      PathUpBounded(nodes, nodes[id].parent.value);
    }
  }

  /** The walk depends only on the parent links. */
  lemma {:induction false} PathUpSameLinks(a: seq<Node>, b: seq<Node>, id: nat)
    requires ParentsBelow(a) && |a| == |b| && id < |a|
    requires forall i :: 0 <= i < |a| ==> a[i].parent == b[i].parent
    ensures ParentsBelow(b) && PathUp(a, id) == PathUp(b, id)
    decreases id
  {
    if a[id].parent.Some? {
      PathUpSameLinks(a, b, a[id].parent.value);
    }
  }

  /** `backpropagation(node, winner)`: walk up the parent links crediting
      every node on the way. */
  function Backpropagate(nodes: seq<Node>, id: nat, winner: Option<int>): (r: seq<Node>)
    requires ParentsBelow(nodes) && id < |nodes|
    ensures |r| == |nodes|
    ensures forall i :: 0 <= i < |nodes| ==> r[i] == (if i in PathUp(nodes, id) then Credit(nodes[i], winner) else nodes[i])
    decreases id
  {
    var nodes' := nodes[id := Credit(nodes[id], winner)];
    PathUpSameLinks(nodes, nodes', id);
    match nodes[id].parent
    case None => nodes'
    case Some(p) =>
      PathUpSameLinks(nodes, nodes', p);
      PathUpBounded(nodes, p);
      Backpropagate(nodes', p, winner)
  }

  /** Back-propagation on the engine's tree: every node from `id` up to the
      root gets one more visit and, where the outcome is its player's win,
      one more win; nothing else changes, and no node gets more wins than visits. */
  lemma BackpropagationEffect(e: Engine, id: nat, winner: Option<int>)
    requires EngineOk(e) && id < |e.tree.nodes| && ReachesRoot(e.tree, id)
    ensures var nodes' := Backpropagate(e.tree.nodes, id, winner);
      && EngineOk(Engine(e.board, Tree(nodes', e.tree.root)))
      && id in PathUp(e.tree.nodes, id) && e.tree.root in PathUp(e.tree.nodes, id)
      && (forall i :: i in PathUp(e.tree.nodes, id) ==>
            (&& i < |e.tree.nodes|
             && nodes'[i].visits == e.tree.nodes[i].visits + 1
             && nodes'[i].wins == e.tree.nodes[i].wins
                + (if winner.Some? && winner.value != 0 && e.tree.nodes[i].player == winner.value then 1 else 0)))
      && (forall i :: 0 <= i < |e.tree.nodes| && i !in PathUp(e.tree.nodes, id) ==> nodes'[i] == e.tree.nodes[i])
  {
    RootOnPath(e.tree, id);
    PathUpBounded(e.tree.nodes, id);
    CreditKeepsEngineOk(e, Backpropagate(e.tree.nodes, id, winner), PathUp(e.tree.nodes, id), winner);
  }

  /** Crediting any set of nodes touches only counters, and a win always
      comes with a visit, so the engine invariant survives. */
  lemma CreditKeepsEngineOk(e: Engine, nodes': seq<Node>, credited: set<nat>, winner: Option<int>)
    requires EngineOk(e) && |nodes'| == |e.tree.nodes|
    requires forall i :: 0 <= i < |nodes'| ==> nodes'[i] == (if i in credited then Credit(e.tree.nodes[i], winner) else e.tree.nodes[i])
    ensures EngineOk(Engine(e.board, Tree(nodes', e.tree.root)))
  {
    var nodes := e.tree.nodes;
    forall i | 0 <= i < |nodes|
      ensures nodes'[i].parent == nodes[i].parent && nodes'[i].children == nodes[i].children
      ensures nodes'[i].action == nodes[i].action && nodes'[i].wins <= nodes'[i].visits
    {
    }
  }

  lemma {:induction false} RootOnPath(t: Tree, id: nat)
    requires ParentsBelow(t.nodes) && id < |t.nodes| && ReachesRoot(t, id)
    ensures t.root in PathUp(t.nodes, id)
    decreases id
  {
    if id != t.root {
      RootOnPath(t, t.nodes[id].parent.value);
    }
  }

  // ---------------------------------------------------------------------
  // ucb, get_child_max_ucb, selection

  /** The score the source gives unvisited children and empty parents. */
  const UNVISITED_SCORE: real := 999999.0

  /** `ucb(v, n, n_parent)`: the integer branches; `formula` stands for the
      floating-point expression `v/n + ln2 * sqrt(ln(n_parent)/n)`. */
  function Ucb(v: nat, n: nat, nParent: nat, formula: (nat, nat, nat) -> real): (u: real)
    ensures n == 0 || nParent == 0 ==> u == UNVISITED_SCORE
    ensures n > 0 && nParent > 0 && v == 0 ==> u == 0.0
    ensures n > 0 && nParent > 0 && v > 0 ==> u == formula(v, n, nParent)
  {
    if n == 0 || nParent == 0 then UNVISITED_SCORE
    else if v == 0 then 0.0
    else formula(v, n, nParent)
  }

  /** The floating-point expression matters only for a visited node with a
      visited parent and some wins: otherwise every formula gives the same
      score, one of the two integer constants. */
  lemma UcbIntegerBranches(v: nat, n: nat, nParent: nat, f: (nat, nat, nat) -> real, f': (nat, nat, nat) -> real)
    requires v == 0 || n == 0 || nParent == 0
    ensures Ucb(v, n, nParent, f) == Ucb(v, n, nParent, f')
    ensures Ucb(v, n, nParent, f) == UNVISITED_SCORE || Ucb(v, n, nParent, f) == 0.0
  {
  }

  /** The entry `get_child_max_ucb` puts in `ucb_list` for child `c` of `id`. */
  function ChildScore(t: Tree, id: nat, c: nat, formula: (nat, nat, nat) -> real): real
    requires id < |t.nodes| && c < |t.nodes|
  {
    if t.nodes[c].visits == 0 then UNVISITED_SCORE
    else Ucb(t.nodes[c].wins, t.nodes[c].visits, t.nodes[id].visits, formula)
  }

  function Scores(t: Tree, id: nat, formula: (nat, nat, nat) -> real): (s: seq<real>)
    requires TreeOk(t) && id < |t.nodes|
    ensures |s| == |t.nodes[id].children|
    ensures forall x :: 0 <= x < |s| && t.nodes[t.nodes[id].children[x]].visits == 0 ==> s[x] == UNVISITED_SCORE
    ensures forall x :: 0 <= x < |s| && t.nodes[t.nodes[id].children[x]].visits > 0 ==>
      var c := t.nodes[t.nodes[id].children[x]];
      s[x] == Ucb(c.wins, c.visits, t.nodes[id].visits, formula)
  {
    var cs := t.nodes[id].children;
    seq(|cs|, x requires 0 <= x < |cs| => ChildScore(t, id, cs[x], formula))
  }

  /** `max(ucb_list)` */
  function MaxOf(s: seq<real>): (m: real)
    requires |s| > 0
    ensures m in s && forall x :: 0 <= x < |s| ==> s[x] <= m
  {
    if |s| == 1 then s[0]
    else
      var rest := MaxOf(s[1..]);
      assert forall x :: 1 <= x < |s| ==> s[x] == s[1..][x - 1];
      if s[0] >= rest then s[0] else rest
  }

  /** `np.array(child_node_list)[idx_max]`: the children scoring `m`, in order. */
  function ScoringAt(cs: seq<nat>, s: seq<real>, m: real): (best: seq<nat>)
    requires |cs| == |s|
    ensures forall c :: c in best <==> exists x :: 0 <= x < |cs| && cs[x] == c && s[x] == m
  {
    if |cs| == 0 then []
    else
      var rest := ScoringAt(cs[1..], s[1..], m);
      assert forall x :: 1 <= x < |cs| ==> cs[x] == cs[1..][x - 1] && s[x] == s[1..][x - 1];
      assert forall c :: c in rest ==> exists x :: 0 <= x < |cs| && cs[x] == c && s[x] == m by {
        forall c | c in rest
          ensures exists x :: 0 <= x < |cs| && cs[x] == c && s[x] == m
        {
          var x :| 0 <= x < |cs[1..]| && cs[1..][x] == c && s[1..][x] == m;
          assert cs[x + 1] == c && s[x + 1] == m;
        }
      }
      (if s[0] == m then [cs[0]] else []) + rest
  }

  /** `get_child_max_ucb(node)`: None for a leaf, otherwise one of the
      children with the maximum score, the one `random.choice` selects (`k`). */
  function GetChildMaxUcb(t: Tree, id: nat, formula: (nat, nat, nat) -> real, k: nat): (r: Option<nat>)
    requires TreeOk(t) && id < |t.nodes|
    ensures r.None? <==> IsLeaf(t, id)
    ensures r.Some? ==> r.value in t.nodes[id].children && id < r.value < |t.nodes|
    ensures r.Some? ==> forall x :: 0 <= x < |t.nodes[id].children| ==>
      ChildScore(t, id, t.nodes[id].children[x], formula) <= ChildScore(t, id, r.value, formula)
  {
    var cs := t.nodes[id].children;
    if |cs| == 0 then None
    else
      var s := Scores(t, id, formula);
      var m := MaxOf(s);
      var best := ScoringAt(cs, s, m);
      assert |best| > 0 by {
        var x :| 0 <= x < |s| && s[x] == m;
        assert cs[x] in best;
      }
      var c := Choose(best, k);
      assert ChildScore(t, id, c, formula) == m by {
        var x :| 0 <= x < |cs| && cs[x] == c && s[x] == m;
      }
      Some(c)
  }

  /** Every child with the maximum score is a possible answer. */
  lemma EveryBestChildPossible(t: Tree, id: nat, formula: (nat, nat, nat) -> real, x: nat)
    requires TreeOk(t) && id < |t.nodes| && x < |t.nodes[id].children|
    requires forall y :: 0 <= y < |t.nodes[id].children| ==>
      ChildScore(t, id, t.nodes[id].children[y], formula) <= ChildScore(t, id, t.nodes[id].children[x], formula)
    ensures exists k: nat :: GetChildMaxUcb(t, id, formula, k) == Some(t.nodes[id].children[x])
  {
    var cs := t.nodes[id].children;
    var s := Scores(t, id, formula);
    var m := MaxOf(s);
    assert s[x] == m;
    var best := ScoringAt(cs, s, m);
    assert cs[x] in best;
    var j :| 0 <= j < |best| && best[j] == cs[x];
    ChooseReachesEvery(best, j);
    assert GetChildMaxUcb(t, id, formula, j) == Some(cs[x]);
  }

  /** Unvisited children are explored first: when the parent has been visited
      and the floating-point scores of the visited children stay below the
      sentinel, a child with no visits beats every visited one, and a visited
      child with no wins scores 0. */
  lemma UnvisitedFirst(t: Tree, id: nat, formula: (nat, nat, nat) -> real, k: nat)
    requires TreeOk(t) && id < |t.nodes| && t.nodes[id].visits > 0
    requires forall x :: 0 <= x < |t.nodes[id].children| && t.nodes[t.nodes[id].children[x]].visits > 0 ==>
      formula(t.nodes[t.nodes[id].children[x]].wins, t.nodes[t.nodes[id].children[x]].visits, t.nodes[id].visits) < UNVISITED_SCORE
    requires exists x :: 0 <= x < |t.nodes[id].children| && t.nodes[t.nodes[id].children[x]].visits == 0
    ensures GetChildMaxUcb(t, id, formula, k).Some?
    ensures t.nodes[GetChildMaxUcb(t, id, formula, k).value].visits == 0
    ensures forall x :: (0 <= x < |t.nodes[id].children| && t.nodes[t.nodes[id].children[x]].visits > 0
                         && t.nodes[t.nodes[id].children[x]].wins == 0) ==> ChildScore(t, id, t.nodes[id].children[x], formula) == 0.0
  {
    var x :| 0 <= x < |t.nodes[id].children| && t.nodes[t.nodes[id].children[x]].visits == 0;
    var c := GetChildMaxUcb(t, id, formula, k).value;
    assert ChildScore(t, id, t.nodes[id].children[x], formula) == UNVISITED_SCORE;
  }

  /** `b` is `a` or lies below it along child links. */
  ghost predicate Below(t: Tree, a: nat, b: nat)
    requires TreeOk(t) && a < |t.nodes|
    decreases |t.nodes| - a
  {
    a == b || exists x :: 0 <= x < |t.nodes[a].children| && Below(t, t.nodes[a].children[x], b)
  }

  /** `selection(node)`: descend through maximum-score children until a leaf.
      `pick(d)` is the selection `random.choice` makes at depth `d`. */
  function Selection(t: Tree, id: nat, formula: (nat, nat, nat) -> real, pick: nat -> nat, depth: nat): (r: nat)
    requires TreeOk(t) && id < |t.nodes|
    ensures r < |t.nodes| && IsLeaf(t, r) && Below(t, id, r)
    ensures IsLeaf(t, id) ==> r == id
    decreases |t.nodes| - id
  {
    match GetChildMaxUcb(t, id, formula, pick(depth))
    case None => id
    case Some(c) =>
      var r := Selection(t, c, formula, pick, depth + 1);
      assert Below(t, id, r) by {
        var x :| 0 <= x < |t.nodes[id].children| && t.nodes[id].children[x] == c;
      }
      r
  }

  // ---------------------------------------------------------------------
  // The part of simulation that reads the tree, and one search iteration

  /** The start of `simulation(node)`: a decided node reports its own player
      as the winner (a draw included); otherwise the playout's outcome,
      which is not modelled, is taken as given. */
  function SimulationOutcome(e: Engine, id: nat, playout: Option<int>): (r: Result<(Engine, Option<int>)>)
    requires EngineOk(e) && id < |e.tree.nodes|
    ensures r.Ok? ==> EngineOk(r.value.0) && r.value.0.board == e.board && r.value.0.tree.root == e.tree.root
    ensures r.Ok? ==> |r.value.0.tree.nodes| == |e.tree.nodes|
    ensures r.Ok? ==> forall i :: 0 <= i < |e.tree.nodes| ==> r.value.0.tree.nodes[i].parent == e.tree.nodes[i].parent
    ensures r.Ok? && r.value.0.tree.nodes[id].ifWin == Some(true) ==> r.value.1 == Some(e.tree.nodes[id].player)
    ensures r.Ok? && r.value.0.tree.nodes[id].ifWin == Some(false) ==> r.value.1 == playout
  {
    match SetNodeWin(e, id)
    case Err(err) => Err(err)
    case Ok(e1) =>
      if e1.tree.nodes[id].ifWin == Some(true) then Ok((e1, Some(e1.tree.nodes[id].player)))
      else Ok((e1, playout))
  }

  /** Back-propagation applied to the engine: the root gets one more visit
      and the invariant holds. */
  function Credited(e: Engine, id: nat, winner: Option<int>): (e': Engine)
    requires EngineOk(e) && id < |e.tree.nodes| && ReachesRoot(e.tree, id)
    ensures EngineOk(e') && e'.board == e.board && e'.tree.root == e.tree.root
    ensures |e'.tree.nodes| == |e.tree.nodes|
    ensures e'.tree.nodes[e.tree.root].visits == e.tree.nodes[e.tree.root].visits + 1
  {
    BackpropagationEffect(e, id, winner);
    Engine(e.board, Tree(Backpropagate(e.tree.nodes, id, winner), e.tree.root))
  }

  /** The iteration after expansion: the simulation outcome, then
      back-propagation from the expanded node. */
  function SimulateAndCredit(e: Engine, id: nat, playout: Option<int>): (r: Result<Engine>)
    requires EngineOk(e) && id < |e.tree.nodes| && ReachesRoot(e.tree, id)
    ensures r.Ok? ==> EngineOk(r.value) && r.value.board == e.board && r.value.tree.root == e.tree.root
    ensures r.Ok? ==> |r.value.tree.nodes| == |e.tree.nodes|
    ensures r.Ok? ==> r.value.tree.nodes[e.tree.root].visits == e.tree.nodes[e.tree.root].visits + 1
  {
    var s := SimulationOutcome(e, id, playout);
    if s.Err? then Err(s.error)
    else
      SameLinksReach(e.tree, s.value.0.tree, id);
      Ok(Credited(s.value.0, id, s.value.1))
  }

  /** One pass of the search loop in `model`: selection, expansion, the
      simulation outcome, back-propagation. */
  function SearchIteration(e: Engine, formula: (nat, nat, nat) -> real, pick: nat -> nat, k: nat, playout: Option<int>): (r: Result<Engine>)
    requires EngineOk(e)
    ensures r.Ok? ==> EngineOk(r.value) && r.value.board == e.board && r.value.tree.root == e.tree.root
    ensures r.Ok? ==> |e.tree.nodes| <= |r.value.tree.nodes|
    ensures r.Ok? ==> r.value.tree.nodes[e.tree.root].visits == e.tree.nodes[e.tree.root].visits + 1
  {
    var leaf := Selection(e.tree, e.tree.root, formula, pick, 0);
    SelectedReachesRoot(e.tree, e.tree.root, leaf);
    ExpandAndCredit(e, leaf, k, playout)
  }

  /** The iteration from the selected leaf on: expansion, the simulation
      outcome, back-propagation from the node expansion returns. */
  function ExpandAndCredit(e: Engine, leaf: nat, k: nat, playout: Option<int>): (r: Result<Engine>)
    requires EngineOk(e) && leaf < |e.tree.nodes| && ReachesRoot(e.tree, leaf)
    ensures r.Ok? ==> EngineOk(r.value) && r.value.board == e.board && r.value.tree.root == e.tree.root
    ensures r.Ok? ==> |e.tree.nodes| <= |r.value.tree.nodes|
    ensures r.Ok? ==> r.value.tree.nodes[e.tree.root].visits == e.tree.nodes[e.tree.root].visits + 1
  {
    var x := Expansion(e, leaf, k);
    if x.Err? then Err(x.error)
    else
      ExpandedReachesRoot(e, leaf, k);
      SimulateAndCredit(x.value.0, x.value.1, playout)
  }

  /** How many passes `model` makes through the search loop. */
  const SIMULATION_TIMES := 10

  /** What one pass leaves to chance: the selections of `random.choice`
      during selection and expansion, and the outcome of the playout. */
  datatype Round = Round(pick: nat -> nat, k: nat, playout: Option<int>)

  /** `for i in range(SIMULATION_TIMES)`: one search iteration per round.
      Every pass that completes visits the root once more. */
  function Search(e: Engine, formula: (nat, nat, nat) -> real, rounds: seq<Round>): (r: Result<Engine>)
    requires EngineOk(e)
    ensures r.Ok? ==> EngineOk(r.value) && r.value.board == e.board && r.value.tree.root == e.tree.root
    ensures r.Ok? ==> |e.tree.nodes| <= |r.value.tree.nodes|
    ensures r.Ok? ==> r.value.tree.nodes[e.tree.root].visits == e.tree.nodes[e.tree.root].visits + |rounds|
    decreases |rounds|
  {
    if |rounds| == 0 then Ok(e)
    else match SearchIteration(e, formula, rounds[0].pick, rounds[0].k, rounds[0].playout)
      case Err(err) => Err(err)
      case Ok(e1) => Search(e1, formula, rounds[1..])
  }

  lemma {:induction false} SameLinksReach(a: Tree, b: Tree, id: nat)
    requires ParentsBelow(a.nodes) && |a.nodes| == |b.nodes| && a.root == b.root && id < |a.nodes|
    requires forall i :: 0 <= i < |a.nodes| ==> a.nodes[i].parent == b.nodes[i].parent
    ensures ParentsBelow(b.nodes) && (ReachesRoot(a, id) <==> ReachesRoot(b, id))
    decreases id
  {
    if a.nodes[id].parent.Some? {
      SameLinksReach(a, b, a.nodes[id].parent.value);
    }
  }

  /** Below the root, parent links lead back up to it. */
  lemma {:induction false} SelectedReachesRoot(t: Tree, a: nat, b: nat)
    requires TreeOk(t) && t.root <= a < |t.nodes| && b < |t.nodes| && Below(t, a, b) && ReachesRoot(t, a)
    ensures ReachesRoot(t, b)
    decreases |t.nodes| - a
  {
    if a != b {
      var x :| 0 <= x < |t.nodes[a].children| && Below(t, t.nodes[a].children[x], b);
      var c := t.nodes[a].children[x];
      assert t.nodes[c].parent == Some(a);
      SelectedReachesRoot(t, c, b);
    }
  }

  lemma ExpandedReachesRoot(e: Engine, id: nat, k: nat)
    requires EngineOk(e) && id < |e.tree.nodes| && ReachesRoot(e.tree, id) && Expansion(e, id, k).Ok?
    ensures ReachesRoot(Expansion(e, id, k).value.0.tree, Expansion(e, id, k).value.1)
  {
    var (e1, node) := Expansion(e, id, k).value;
    SameLinksReach(e.tree, Tree(e1.tree.nodes[..|e.tree.nodes|], e1.tree.root), id);
    PrefixReach(e1.tree, |e.tree.nodes|, id);
    if |e.tree.nodes[id].children| == 0 {
      ExpansionChildren(e, id, k);
    }
  }

  /** Reaching the root depends only on the nodes at or below a given id. */
  lemma {:induction false} PrefixReach(t: Tree, m: nat, id: nat)
    requires ParentsBelow(t.nodes) && m <= |t.nodes| && id < m
    ensures ParentsBelow(t.nodes[..m])
    ensures ReachesRoot(t, id) <==> ReachesRoot(Tree(t.nodes[..m], t.root), id)
    decreases id
  {
    if t.nodes[id].parent.Some? {
      PrefixReach(t, m, t.nodes[id].parent.value);
    }
  }
}
