# Gomoku engine: a Dafny model

This project models the decision core of a small Python Gomoku (five in a
row) engine and proves properties of it. Boards are square grids of ints:
0 is an empty cell, and 1 and 2 are the players' stones. The model covers
four parts.

- **Game** (`gobang.py`, modules `Grid`, `Scanner`, `GoBang`):
  - `check_winner` slides a window of `n` cells along rows, columns and both
    diagonals, lists every window whose cells all hold `player`, and gives
    the verdict: `player`, 0 for a draw, or None.
  - `GoBangBoard.put` places a stone.
  - `GoBangGame.proceed` is the game state machine. It checks the cell,
    appends to the history, latches the result and alternates the players.
  - The in-file tests are modelled as proved scenarios (`WinnerTests`,
    `GameTest`).
- **Rule strategy** (`ai_strategy/rule_strategy.py`, module `RuleStrategy`):
  an ordered chain of rules, then the random fallback.
  - rule 1: extend own four;
  - rule 2: block the opponent's four;
  - rule 3: extend own open three;
  - rule 4: block the opponent's open three.
- **Random strategy** (`ai_strategy/random_strategy.py`, module
  `RandomStrategy`): list the empty cells in row-major order and pick one.
- **MCTS bookkeeping** (`ai_strategy/mcts_strategy.py`, modules `Mcts`,
  `MctsTurn`). The search tree is an arena: a sequence of nodes indexed by
  id, where a parent always has a smaller id than its children. The model
  covers:
  - `trim`, `reconstruct_board`, `set_node_win`, `expansion`,
    `backpropagation`;
  - the integer branches of `ucb`, `get_child_max_ucb` and `selection`;
  - `receive_human_action` and `reset`;
  - `model` itself: start or continue, the rule short-circuit, the search
    loop and the final decision.

`random.choice(xs)` is modelled as `Choose(xs, k)`, where the extra
argument `k` stands for the random source's selection. The result always
lies in `xs`, and quantifying over `k` gives exactly the elements of `xs`
(`Basics.ChooseReachesEvery`). The engine quirks are kept as the code has
them:

- `reconstruct_board` appends `node`, not `cur_node`, so only the node's
  own action is written (`Mcts.ReconstructDropsParentMove`).
- `expansion` enumerates the empty cells of the root board.
- The `break` in `receive_human_action` leaves only the inner loop, so the
  last row with a new stone wins (`MctsTurn.NewStoneTakesLastRow`).
- The node synthesised there is not added to the root's children, while
  the rule path adds its node.
- `put` asserts `<= BOARD_SIZE`, which lets index 10 reach the list
  lookup (`GoBang.PutAtBoardSizeEdge`).

The single behaviour the model corrects is listed under Findings.

## Model

| member | source | states |
|---|---|---|
| Basics.Choose | ai_strategy/random_strategy.py:17 | `random.choice` returns an element of the list it is given |
| Basics.ChooseReachesEvery | ai_strategy/random_strategy.py:17 | every element of the list is a possible outcome of the choice |
| Basics.Opponent | gobang.py:92 | `1 if p == 2 else 2` always gives a player; for a player it gives the other one, 3 - p, and applying it twice gives p back |
| Grid.Set | gobang.py:27 | writing one cell gives a board of the same shape with that cell holding the value and every other cell unchanged |
| Grid.EmptyGrid | gobang.py:15 | the new position is an n-by-n square with every cell 0 |
| Grid.OccupiedGrows | gobang.py:25-28 | a stone on an empty cell adds exactly that cell to the set of occupied cells, so their number grows by one |
| Grid.WindowMeansCells | gobang.py:172-209 | the recursive window test holds iff each of the n cells s + k*d, for k < n, is on the board and holds the owner |
| Grid.SweepExact | ai_strategy/random_strategy.py:13-16 | the double `for i ... for j ...` loop collects exactly the cells of its range that pass the test, each once, in row-major order |
| Scanner.WindowInRange | gobang.py:172-209 | a window that fits on the board starts inside the index ranges of its orientation's loops |
| Scanner.ScanOrientationExact | gobang.py:168-209 | one orientation's loop lists a run iff it has that orientation, its n cells all hold the player, and its end is n-1 steps from its start |
| Scanner.RunsExact | gobang.py:168-209 | `con_list` holds exactly the qualifying windows of all four orientations: nothing off the board, nothing with a foreign cell, nothing missed |
| Scanner.CheckWinnerVerdict | gobang.py:161-215 | the winner is the player iff the player owns some window of n, 0 iff there is none and no cell is 0, and None otherwise |
| Scanner.WindowWins | gobang.py:168-215 | any window of n of the player's cells is reported, and makes the player the winner |
| Scanner.StonesWithinNoRun | gobang.py:168-215 | when all of a player's stones lie within fewer than n cells, the list is empty and no run exists |
| Scanner.ScanOrientationOrdered | gobang.py:172-209 | within one orientation the runs come in row-major order of their starts |
| Scanner.RunsInScanOrder | gobang.py:168-209 | `con_list` lists rows, then columns, then down-right, then up-right runs, each group in row-major order |
| GoBang.NewBoard | gobang.py:14-16 | a new board is 10 by 10 and empty, with round count 0 |
| GoBang.Put | gobang.py:18-28 | `put` succeeds iff both indices pass the `<= BOARD_SIZE` assertions, lie on the board and name an empty cell; a failed assertion is reported as such; on success exactly that cell holds the player and the round count goes up by 1 |
| GoBang.PutOccupiedRefused | gobang.py:25-26 | an occupied cell raises, and no new board comes back |
| GoBang.PutAtBoardSizeEdge | gobang.py:22-25 | index 10 passes the assertions but fails as a list index; index 11 fails the assertion |
| GoBang.PutKeepsCount | gobang.py:25-28 | a successful put keeps the round count equal to the number of stones on the board |
| GoBang.NewGame | gobang.py:52-57 | a new game starts with player 1, an empty history, no result and an empty 10-by-10 board |
| GoBang.NewGameOk | gobang.py:52-57 | a new game satisfies the game invariant |
| GoBang.Proceed | gobang.py:74-92 | a decided game refuses every move; otherwise the move succeeds iff `put` does, the history gains the position, the result is the verdict for the mover only, and the player flips iff the result is None |
| GoBang.ProceedKeepsGameOk | gobang.py:82-92 | after every accepted move the players stay in {1, 2}, the round count equals the stones and the history length, history cells are occupied, and a decided result is 0 or the player to move |
| GoBang.ResultLatched | gobang.py:82-83 | once a result is known, every further move is refused |
| GoBang.ProceedVerdict | gobang.py:84-92 | after a move the result is the mover iff the mover owns a five; without one it is 0 on a full board and None otherwise |
| GoBang.ProceedCompletingWins | gobang.py:84-92 | a move onto an empty cell that completes a five wins, the mover stays the player to move, and the history gains the move |
| WinnerTests.UndecidedHasNoRun | gobang.py:222-227 | no window of five on the first test board belongs to player 1 |
| WinnerTests.UndecidedBoardVerdict | gobang.py:222-229 | the first test board gives None for player 1 |
| WinnerTests.RowFiveWindow | gobang.py:231-236 | row 0 of the second test board is a five of player 2 |
| WinnerTests.RowFiveVerdict | gobang.py:231-238 | the second test board gives player 2 |
| WinnerTests.ColumnFiveWindow | gobang.py:240-245 | column 4 of the third test board is a five of player 1 |
| WinnerTests.ColumnFiveVerdict | gobang.py:240-247 | the third test board gives player 1 |
| WinnerTests.DiagonalFiveWindow | gobang.py:249-254 | the main diagonal of the fourth test board is a five of player 1 |
| WinnerTests.DiagonalFiveVerdict | gobang.py:249-256 | the fourth test board gives player 1 |
| WinnerTests.AntiDiagonalFiveWindow | gobang.py:258-263 | the up-right diagonal from (4, 0) on the fifth test board is a five of player 2 |
| WinnerTests.AntiDiagonalFiveVerdict | gobang.py:258-265 | the fifth test board gives player 2 |
| GameTest.Play | gobang.py:267-276 | playing no moves leaves the game as it was, and a refused first move stops the sequence with its error |
| GameTest.CellAfterMeaning | gobang.py:268-276 | after t test moves a cell holds the player of the move that named it, and is 0 when no move did |
| GameTest.NoVerdictBeforeLast | gobang.py:268-275 | before the ninth move neither player has five on the board, and the board is not full |
| GameTest.StepUndecided | gobang.py:268-275 | each of the first eight moves is accepted, and leads to the expected board, player and history with no result |
| GameTest.LastStepWins | gobang.py:276 | the ninth move (4, 4) completes player 1's diagonal from (0, 0) and ends the game with result 1 |
| GameTest.NineMoveGame | gobang.py:266-279 | the nine-move test game ends with result 1 and the diagonal five; a further move is then refused |
| RandomStrategy.EmptyCells | ai_strategy/random_strategy.py:12-16 | `empty_list` holds exactly the empty cells, in row-major order |
| RandomStrategy.EmptyCellsNoneIffFull | ai_strategy/random_strategy.py:12-17 | the list is empty iff the board has no empty cell |
| RandomStrategy.Model | ai_strategy/random_strategy.py:11-18 | the move is an empty cell on the board; the call fails, on the empty choice, iff the board is full |
| RandomStrategy.EveryEmptyCellPossible | ai_strategy/random_strategy.py:13-17 | every empty cell is a possible move |
| RandomStrategy.IgnoresPlayer | ai_strategy/random_strategy.py:11-18 | the `ai_player` argument has no effect on the move |
| RuleStrategy.CheckBoarder | ai_strategy/rule_strategy.py:25-28 | both coordinates are compared with the width of row 0; on a square board that is exactly lying on the board |
| RuleStrategy.CheckPointEmpty | ai_strategy/rule_strategy.py:30-35 | a point reported empty is on the board and holds 0; a point off the board is never empty |
| RuleStrategy.CheckPointEmptyMeans | ai_strategy/rule_strategy.py:25-35 | on a square board a point is "empty" iff it lies on the board and holds 0; an off-board point never is |
| RuleStrategy.Candidates | ai_strategy/rule_strategy.py:42-51 | `new_points` has two entries per run, in run order: one step before its start, then one step after its end, along the run's orientation |
| RuleStrategy.FirstFree | ai_strategy/rule_strategy.py:52-54 | the answer is the first empty point of the list, and None means no point of the list is empty |
| RuleStrategy.ExtendFour | ai_strategy/rule_strategy.py:37-54 | an answer is a free cell among the candidates next to the runs of four; no answer means none of those candidates is free |
| RuleStrategy.ExtendFourFirstMatch | ai_strategy/rule_strategy.py:37-54 | rules 1 and 2 return the first free candidate of the scan-ordered runs of four, and return nothing only when no run of four has a free end |
| RuleStrategy.FiveFromBehind | ai_strategy/rule_strategy.py:43-51 | a stone on the free cell just before a run of four makes five |
| RuleStrategy.FiveFromAhead | ai_strategy/rule_strategy.py:43-51 | a stone on the free cell just after a run of four makes five |
| RuleStrategy.CandidateCompletesFive | ai_strategy/rule_strategy.py:43-54 | any free candidate of a run of four completes five for that run's owner |
| RuleStrategy.ExtendFourCompletesFive | ai_strategy/rule_strategy.py:37-54 | the cell rule 1 or 2 returns is empty, and the player's stone there makes check_winner report the player for n = 5 |
| RuleStrategy.Rule1 | ai_strategy/rule_strategy.py:37-54 | rule 1's cell is empty, and playing it wins for the AI |
| RuleStrategy.Rule2 | ai_strategy/rule_strategy.py:56-73 | rule 2's cell is empty, and it is the cell where the opponent's four would become five |
| RuleStrategy.ExtendThreeScan | ai_strategy/rule_strategy.py:80-111 | the answer belongs to the first run with both ends free: the start side when the cell beyond it is free, else the end side when the cell beyond that is free, else either side; None means no run has both ends free |
| RuleStrategy.Rule3 | ai_strategy/rule_strategy.py:75-111 | rule 3's cell is an empty cell on the board |
| RuleStrategy.Rule3FirstOpenThree | ai_strategy/rule_strategy.py:78-111 | rule 3 answers for the first open three of the AI in scan order, and answers nothing when no three is open |
| RuleStrategy.Rule3EitherEnd | ai_strategy/rule_strategy.py:110-111 | when neither cell beyond an open three is free, both ends are possible answers |
| RuleStrategy.BlockThreeScan | ai_strategy/rule_strategy.py:118-145 | the answer is an end of the first run with both ends free and a free cell beyond one of them; None means no run qualifies |
| RuleStrategy.Rule4 | ai_strategy/rule_strategy.py:113-145 | rule 4's cell is an empty cell on the board |
| RuleStrategy.Rule4OnlyThreats | ai_strategy/rule_strategy.py:113-145 | rule 4 answers iff the opponent has a threatening three (both ends free and a free cell beyond one of them), and then at an end of the first such three; a three with no free cell beyond its ends is left alone |
| RuleStrategy.Rules1To4 | ai_strategy/mcts_strategy.py:245-263 | the first rule that answers decides: rule 1 for the AI, then rule 2 for the opponent, rule 3 for the AI, rule 4 for the opponent; nothing iff all four are silent; a rule 1 answer wins for the AI and a rule 2 answer is where the opponent would make five |
| RuleStrategy.Model | ai_strategy/rule_strategy.py:150-158 | the move is an empty cell on the board, and the call fails iff the board is full |
| RuleStrategy.ModelPriority | ai_strategy/rule_strategy.py:153-158 | each rule's answer is used only when every earlier rule is silent; rules 2 and 4 look at `1 if ai == 2 else 2`, and the random fallback runs last |
| RuleStrategy.OwnWinBeforeBlock | ai_strategy/rule_strategy.py:154-158 | when the AI can complete five it does, before any block, and the move wins |
| Mcts.Trim | ai_strategy/mcts_strategy.py:28-30 | the node becomes the root with no parent and every other node is unchanged; trimming to a node whose id is not below the root's keeps the tree invariant |
| Mcts.Reconstruct | ai_strategy/mcts_strategy.py:44-57 | the root gives a copy of `cur_board`; a node whose parent links do not reach the root raises; any other node gives `cur_board` with only its own action written for its player |
| Mcts.ReconstructIsReplayNearRoot | ai_strategy/mcts_strategy.py:44-57 | for the root and its children, the reconstruction equals replaying every action down from the root |
| Mcts.ReconstructDropsParentMove | ai_strategy/mcts_strategy.py:48-52 | for a grandchild of the root, the parent's move is missing from the reconstructed board, though the replay has it |
| Mcts.SetNodeWin | ai_strategy/mcts_strategy.py:128-139 | a set flag is never changed; otherwise the flag becomes true iff check_winner for the node's player on its reconstructed board returns anything; only that flag changes |
| Mcts.SetNodeWinIdempotent | ai_strategy/mcts_strategy.py:128-130 | running the win check twice is the same as running it once |
| Mcts.Grow | ai_strategy/mcts_strategy.py:119-125 | the new children take the next ids and become the node's child list in order; nothing else changes |
| Mcts.GrowKeepsTreeOk | ai_strategy/mcts_strategy.py:119-125 | adding the children keeps parents below and children above, child links pointing back, and wins at most visits |
| Mcts.GrowKeepsEngineOk | ai_strategy/mcts_strategy.py:119-125 | children whose actions are on the board keep the whole engine invariant |
| Mcts.Expansion | ai_strategy/mcts_strategy.py:106-126 | a node that has children is returned unchanged; any result keeps the invariant, the board and the root, only adds nodes, and leaves every other node as it was |
| Mcts.ExpansionChildren | ai_strategy/mcts_strategy.py:111-126 | a decided node gains no children and is returned; an undecided one gains exactly one child per empty cell of `cur_board` in row-major order, and one of them is returned |
| Mcts.ExpansionOnFullBoardFails | ai_strategy/mcts_strategy.py:119-126 | an undecided leaf on a board with no empty cell fails on the empty choice |
| Mcts.Backpropagate | ai_strategy/mcts_strategy.py:178-189 | each node on the parent path from the node is credited once, and every other node is unchanged |
| Mcts.BackpropagationEffect | ai_strategy/mcts_strategy.py:184-189 | the node and the root are on the path; each node on it gains one visit, and one win when the winner is non-zero and is its player; nothing else changes, and wins stay at most visits |
| Mcts.CreditKeepsEngineOk | ai_strategy/mcts_strategy.py:184-189 | crediting nodes changes only their counters, and a win always comes with a visit, so the engine invariant holds afterwards |
| Mcts.Ucb | ai_strategy/mcts_strategy.py:59-64 | 999999 when the node or its parent has no visits, 0 for a visited node without wins, and the floating-point expression only otherwise |
| Mcts.UcbIntegerBranches | ai_strategy/mcts_strategy.py:59-64 | without wins or without visits the score is one of the two integer constants, whatever the floating-point expression is |
| Mcts.Scores | ai_strategy/mcts_strategy.py:66-77 | `ucb_list` holds one score per child, in child order: 999999 for a child with no visits, otherwise `ucb(win_num, visit_num, node.visit_num)` |
| Mcts.MaxOf | ai_strategy/mcts_strategy.py:78 | `max` returns an element of the list that no element exceeds |
| Mcts.ScoringAt | ai_strategy/mcts_strategy.py:79-81 | the boolean mask keeps exactly the children whose score is the maximum |
| Mcts.GetChildMaxUcb | ai_strategy/mcts_strategy.py:66-85 | a leaf gives None; otherwise the answer is a child of the node with a score no other child exceeds |
| Mcts.EveryBestChildPossible | ai_strategy/mcts_strategy.py:78-81 | every child with the maximum score is a possible answer |
| Mcts.UnvisitedFirst | ai_strategy/mcts_strategy.py:59-77 | under a visited parent, an unvisited child is chosen before any visited one whenever the visited children score below 999999, and a visited child with no wins scores 0 |
| Mcts.Selection | ai_strategy/mcts_strategy.py:87-104 | selection returns the node itself when it is a leaf, and otherwise a leaf reached by following child links |
| Mcts.SimulationOutcome | ai_strategy/mcts_strategy.py:141-149 | a node whose board is decided reports its own player; an undecided one reports the playout's outcome; the invariant, the board, the root and every parent link are kept |
| Mcts.Credited | ai_strategy/mcts_strategy.py:178-189 | back-propagation keeps the engine invariant and gives the root one more visit |
| Mcts.SimulateAndCredit | ai_strategy/mcts_strategy.py:269-270 | simulation then back-propagation keeps the invariant, the board and the root, and visits the root once more |
| Mcts.ExpandAndCredit | ai_strategy/mcts_strategy.py:268-270 | from a selected leaf that reaches the root, expansion, simulation and back-propagation keep the invariant, the board and the root, and visit the root once more |
| Mcts.SearchIteration | ai_strategy/mcts_strategy.py:266-270 | one pass of selection, expansion, simulation and back-propagation keeps the invariant, the board and the root, only adds nodes, and visits the root once more |
| Mcts.Search | ai_strategy/mcts_strategy.py:265-270 | the loop keeps the invariant, the board and the root, and visits the root once per pass |
| MctsTurn.FirstGainFrom | ai_strategy/mcts_strategy.py:202-205 | the inner loop stops at the first column of the row where the new board exceeds the old one, and finds nothing iff there is no such column |
| MctsTurn.NewStoneAfter | ai_strategy/mcts_strategy.py:199-205 | after the first i rows, `new_point` is the first gain of the last row so far that has a gain, and is None iff no row so far has one |
| MctsTurn.NewStone | ai_strategy/mcts_strategy.py:199-206 | `new_point` is None iff no cell gained; otherwise it is a cell that gained, and no later row has a gain |
| MctsTurn.NewStoneMeaning | ai_strategy/mcts_strategy.py:199-206 | nothing is found iff no cell gained; otherwise the cell found gained, and no gain lies in a later row or earlier in its row |
| MctsTurn.SingleNewStoneFound | ai_strategy/mcts_strategy.py:199-206 | a single new stone is found wherever it is |
| MctsTurn.NewStoneTakesLastRow | ai_strategy/mcts_strategy.py:201-205 | with gains in two rows, the one in the earlier row is not reported, because `break` leaves only the inner loop |
| MctsTurn.FirstMatch | ai_strategy/mcts_strategy.py:217-218 | the search returns the first root child whose action is the new point, and None iff no child has it |
| MctsTurn.AddChild | ai_strategy/mcts_strategy.py:256-259 | a fresh node with the root as parent is added at the next id, appended to the root's children only when asked; nothing else changes |
| MctsTurn.AddChildLinksBack | ai_strategy/mcts_strategy.py:256-259 | after the addition every listed child still names its parent or is a former root |
| MctsTurn.AddChildKeepsEngineOk | ai_strategy/mcts_strategy.py:256-259 | adding a node whose action is on the board keeps the engine invariant, and the new node reaches the root |
| MctsTurn.PlayFromRoot | ai_strategy/mcts_strategy.py:256-261 | add, reconstruct, trim: the board gains exactly the node's stone, and the new node is the root with no parent |
| MctsTurn.FollowChild | ai_strategy/mcts_strategy.py:219-220 | trimming and then reconstructing keeps the invariant and the board size |
| MctsTurn.ReceiveHumanAction | ai_strategy/mcts_strategy.py:195-221 | the assertion fails iff no cell gained; any result keeps the engine invariant |
| MctsTurn.ReceiveIntoLeafRoot | ai_strategy/mcts_strategy.py:207-215 | with no root children, a new root for the next player is created holding the new stone and is not listed under the old root; the board gains exactly that stone |
| MctsTurn.ReceiveFollowsMatch | ai_strategy/mcts_strategy.py:216-221 | a root child holding the new stone becomes the root; if no child holds it, nothing changes |
| MctsTurn.ReceiveDropsNewStone | ai_strategy/mcts_strategy.py:219-220 | as written, following a matching child keeps the old board, so the new stone is missing from `cur_board` |
| MctsTurn.FollowChildFixed | ai_strategy/mcts_strategy.py:219-220 | reconstructing before trimming gives the old board with the child's stone written, and the child as root |
| MctsTurn.ReceiveHumanActionFixed | ai_strategy/mcts_strategy.py:195-221 | the corrected receive fails iff no cell gained, and keeps the engine invariant |
| MctsTurn.MatchIsChildOfRoot | ai_strategy/mcts_strategy.py:217-218 | the matched child lies above the root, names the root as parent, and holds the new point |
| MctsTurn.ReceiveFixedKeepsNewStone | ai_strategy/mcts_strategy.py:207-221 | whenever the corrected receive moves the tree, the board is the old one with the new stone for the new root's player |
| MctsTurn.Prepare | ai_strategy/mcts_strategy.py:238-243 | the first call keeps the board and starts a one-node tree for the human; a later call fails iff no cell gained a stone; the result keeps the engine invariant |
| MctsTurn.ResetStartsOver | ai_strategy/mcts_strategy.py:238-241 | after `reset` the next call keeps the board passed in and starts a one-node tree for the human, so the rules then run for the AI |
| MctsTurn.RuleShortCircuit | ai_strategy/mcts_strategy.py:244-263 | the move is what rules 1-4 give for the player after the root; without a move the engine is unchanged; the invariant holds |
| MctsTurn.RuleShortCircuitPlays | ai_strategy/mcts_strategy.py:253-263 | a fired rule plays on an empty cell, the board gains exactly that stone, and the new root is a new node listed as the old root's last child |
| MctsTurn.RuleShortCircuitWins | ai_strategy/mcts_strategy.py:251-263 | when rule 1 fires, the engine's new board shows five for the AI |
| MctsTurn.Decide | ai_strategy/mcts_strategy.py:273-277 | a root without children fails; otherwise a root child with a score no other root child exceeds becomes the root, its action is returned, the board gains that action for the child's player, and every other node is unchanged |
| MctsTurn.Model | ai_strategy/mcts_strategy.py:223-277 | `model` keeps the engine invariant and fails whenever absorbing the board fails |
| MctsTurn.ModelRuleFirst | ai_strategy/mcts_strategy.py:251-263 | when a rule fires, no search runs: the move is the rules' answer on an empty cell, and the board gains exactly that stone |
| MctsTurn.ModelSearches | ai_strategy/mcts_strategy.py:265-277 | without a rule, the old root has one more visit per pass, the new root is its child with a maximal score after the search, the move is that child's action, and the board gains exactly that stone |
| MctsTurn.SearchThenDecide | ai_strategy/mcts_strategy.py:265-277 | the search then the decision: the chosen root child scores no lower than any other, carries the returned action and its stone is added to the board, and the old root keeps the passes' visits |

## Left out

- `ui.py` is not modelled. It is the tkinter window: drawing, clicks and sleeps.
- `ai_base.py` is not modelled. It declares an interface and has no behaviour.
- `GoBangGame.dump`, `start_time`, `print_board` and the `print` logging are left out. They are file output, clock reading and console output.
- `GoBangGame.reset` is not modelled separately. It re-runs `__init__`, which is `GoBang.NewGame`.
- The commented-out pandas scanner in `gobang.py` is dead code and is left out.
- The `is_dump` argument of `proceed` is left out, because it only triggers `dump`.
- The floating-point UCB expression is a parameter, `formula`. Only the integer branches of `ucb` are modelled: the 999999 sentinel and 0 for no wins.
- Mcts.SimulationOutcome: the random playout of `simulation` is not modelled. Its outcome is an argument. Only the decided-node shortcut, which reads the tree, is computed.
- `random.seed(1)` and the concrete generator are left out. Every random choice is an explicit selection argument.
- MctsTurn.Model: the search loop is given its rounds as an argument. The source always runs `SIMULATION_TIMES` = 10 of them, but the contract holds for any number.
- numpy arrays, `np.all`, the array difference and `argsort` are replaced by sequence predicates. `argsort` only feeds the log output.
- MctsTurn.Model: a failing call returns an error and no engine, whereas the strategy object keeps every change made before the exception. Those changes are:
  - the tree as `receive_human_action` left it (ai_strategy/mcts_strategy.py:213-221);
  - the nodes and counters of every search pass that completed (265-270), and the win flag `expansion` sets before `random.choice` raises on a full board;
  - for a root without children after the passes, every change the passes made before `reconstruct_board(None)` raises (275).
- Scanner.CheckWinner requires `n >= 1`. The callers use 3, 4 and 5.
- Boards are required to be square, because `check_boarder` and the diagonal bounds mix `len(a)` and `len(a[0])`. Boards are also required to be non-empty. On a 0-by-0 board the loops never run: the rule chain falls through to `random.choice([])`, which raises, and the MCTS path ends in an exception as well.
- The in-file tests print the winner and the position. WinnerTests.RowFiveVerdict and the other verdict lemmas state the winner only.
- GameTest.NineMoveGame states the winning diagonal, not a printed board.
- MctsTurn.Prepare absorbs the human's move with the corrected receive function (see Findings). The version as written is modelled and proved next to it.

## Findings

| source | as written | input that shows it | evidently intended | confidence | as-written member | corrected member |
|---|---|---|---|---|---|---|
| ai_strategy/mcts_strategy.py:219-220 | when a root child matches the human's move, `trim(node)` runs before `reconstruct_board(node)`; by then `node` is the root, so the walk stops at once and `cur_board` stays the old board without the human's stone | a tree whose root has a child with action (0, 0), and a board that differs from `cur_board` only by a stone at (0, 0) | reconstruct first, then trim, as the branch for a root without children does (lines 214-215): `cur_board` gains the human's stone | not executed | MctsTurn.ReceiveDropsNewStone | MctsTurn.ReceiveFixedKeepsNewStone |
