/** `RuleStrategy` (ai_strategy/rule_strategy.py): an ordered chain of four
    geometric rules built on check_winner, then the random fallback. */
module RuleStrategy {
  import opened Basics
  import opened Grid
  import opened Scanner
  import RandomStrategy

  /** `check_boarder`: both coordinates are compared with `len(board[0])`. */
  predicate CheckBoarder(g: Grid, p: Point): (b: bool)
    requires |g| > 0
    ensures IsSquare(g) ==> (b <==> InGrid(g, p))
  {
    0 <= p.0 <= |g[0]| - 1 && 0 <= p.1 <= |g[0]| - 1
  }

  /** `check_point_empty`: off the board is never empty. */
  predicate CheckPointEmpty(g: Grid, p: Point): (b: bool)
    requires IsSquare(g) && |g| > 0
    ensures b ==> InGrid(g, p) && At(g, p) == 0
    ensures !InGrid(g, p) ==> !b
  {
    CheckBoarder(g, p) && g[p.0][p.1] == 0
  }

  /** On a square board the single width test is exactly "on the board", so a
      point is free iff it lies on the board and holds 0. */
  lemma CheckPointEmptyMeans(g: Grid, p: Point)
    requires IsSquare(g) && |g| > 0
    ensures CheckPointEmpty(g, p) <==> InGrid(g, p) && At(g, p) == 0
  {
  }

  /** `k` cells before a run's start, against its orientation. */
  function Behind(r: Run, k: int): Point {
    Offset(r.start, Step(r.orientation), -k)
  }

  /** `k` cells past a run's end, along its orientation. */
  function Ahead(r: Run, k: int): Point {
    Offset(r.end, Step(r.orientation), k)
  }

  /** `new_points` of rule1/rule2: two cells per run, in run order. */
  function Candidates(runs: seq<Run>): (c: seq<Point>)
    ensures |c| == 2 * |runs|
    ensures forall x :: 0 <= x < |runs| ==> c[2 * x] == Behind(runs[x], 1) && c[2 * x + 1] == Ahead(runs[x], 1)
  {
    if |runs| == 0 then []
    else
      var rest := Candidates(runs[1..]);
      assert forall x :: 1 <= x < |runs| ==> runs[x] == runs[1..][x - 1];
      [Behind(runs[0], 1), Ahead(runs[0], 1)] + rest
  }

  /** `pts[x]` is free and no earlier point is. */
  predicate FirstFreeAt(g: Grid, pts: seq<Point>, x: int)
    requires IsSquare(g) && |g| > 0
  {
    0 <= x < |pts| && CheckPointEmpty(g, pts[x]) && forall y :: 0 <= y < x ==> !CheckPointEmpty(g, pts[y])
  }

  /** The first free point of the list, if any. */
  function FirstFree(g: Grid, pts: seq<Point>): (r: Option<Point>)
    requires IsSquare(g) && |g| > 0
    ensures r.Some? ==> exists x :: FirstFreeAt(g, pts, x) && pts[x] == r.value
    ensures r.None? ==> forall x :: 0 <= x < |pts| ==> !CheckPointEmpty(g, pts[x])
  {
    if |pts| == 0 then None
    else if CheckPointEmpty(g, pts[0]) then Some(pts[0])
    else
      var r := FirstFree(g, pts[1..]);
      assert forall x :: 1 <= x < |pts| ==> pts[x] == pts[1..][x - 1];
      assert r.Some? ==> exists x :: FirstFreeAt(g, pts, x) && pts[x] == r.value by {
        if r.Some? {
          var x :| FirstFreeAt(g, pts[1..], x) && pts[1..][x] == r.value;
          assert FirstFreeAt(g, pts, x + 1);
        }
      }
      r
  }

  /** The shared body of rule1 and rule2: for `who`'s runs of four, the first
      free cell just before a start or just after an end. */
  function ExtendFour(g: Grid, who: int): (r: Option<Point>)
    requires IsSquare(g) && |g| > 0
    ensures r.Some? ==> CheckPointEmpty(g, r.value) && r.value in Candidates(Runs(g, who, WIN_LENGTH - 1))
    ensures r.None? ==> forall p :: p in Candidates(Runs(g, who, WIN_LENGTH - 1)) ==> !CheckPointEmpty(g, p)
  {
    var out := CheckWinner(g, who, WIN_LENGTH - 1);
    if out.winner == Some(who) then FirstFree(g, Candidates(out.runs)) else None
  }

  /** `rule1`: complete the AI's own four. */
  function Rule1(g: Grid, aiPlayer: int): (r: Option<Point>)
    requires IsSquare(g) && |g| > 0
    ensures r.Some? ==> InGrid(g, r.value) && At(g, r.value) == 0
    ensures r.Some? ==> CheckWinner(Set(g, r.value, aiPlayer), aiPlayer, WIN_LENGTH).winner == Some(aiPlayer)
  {
    ExtendFourCompletesFive(g, aiPlayer);
    ExtendFour(g, aiPlayer)
  }

  /** `rule2`: block the opponent's four on the cell where it would become five. */
  function Rule2(g: Grid, humanPlayer: int): (r: Option<Point>)
    requires IsSquare(g) && |g| > 0
    ensures r.Some? ==> InGrid(g, r.value) && At(g, r.value) == 0
    ensures r.Some? ==> CheckWinner(Set(g, r.value, humanPlayer), humanPlayer, WIN_LENGTH).winner == Some(humanPlayer)
  {
    ExtendFourCompletesFive(g, humanPlayer);
    ExtendFour(g, humanPlayer)
  }

  /** Which cell rule1/rule2 return: the first free cell of the candidate list
      built in scan order, and nothing when no run of four has a free end. */
  lemma ExtendFourFirstMatch(g: Grid, who: int)
    requires IsSquare(g) && |g| > 0
    ensures var runs := Runs(g, who, WIN_LENGTH - 1);
      && (ExtendFour(g, who).Some? ==>
            |runs| > 0 && exists x :: FirstFreeAt(g, Candidates(runs), x) && Candidates(runs)[x] == ExtendFour(g, who).value)
      && (ExtendFour(g, who).None? && who != 0 ==>
            forall r :: r in runs ==> !CheckPointEmpty(g, Behind(r, 1)) && !CheckPointEmpty(g, Ahead(r, 1)))
  {
    var runs := Runs(g, who, WIN_LENGTH - 1);
    var c := Candidates(runs);
    if ExtendFour(g, who).None? && who != 0 {
      forall r | r in runs
        ensures !CheckPointEmpty(g, Behind(r, 1)) && !CheckPointEmpty(g, Ahead(r, 1))
      {
        var x :| 0 <= x < |runs| && runs[x] == r;
        assert c[2 * x] == Behind(r, 1);
        assert c[2 * x + 1] == Ahead(r, 1);
      }
    }
  }

  /** A free cell just before a run of four makes a window of five. */
  lemma FiveFromBehind(g: Grid, who: int, r: Run)
    requires IsSquare(g) && |g| > 0 && IsRun(g, who, WIN_LENGTH - 1, r) && CheckPointEmpty(g, Behind(r, 1))
    ensures CheckWinner(Set(g, Behind(r, 1), who), who, WIN_LENGTH).winner == Some(who)
  {
    var d := Step(r.orientation);
    var p := Behind(r, 1);
    var g' := Set(g, p, who);
    WindowSurvivesSet(g, who, r.start, d, 4, p);
    assert Offset(p, d, 1) == r.start;
    assert Window(g', who, p, d, 5);
    WindowWins(g', who, WIN_LENGTH, r.orientation, p);
  }

  /** A free cell just after a run of four makes a window of five. */
  lemma FiveFromAhead(g: Grid, who: int, r: Run)
    requires IsSquare(g) && |g| > 0 && IsRun(g, who, WIN_LENGTH - 1, r) && CheckPointEmpty(g, Ahead(r, 1))
    ensures CheckWinner(Set(g, Ahead(r, 1), who), who, WIN_LENGTH).winner == Some(who)
  {
    var d := Step(r.orientation);
    var p := Ahead(r, 1);
    var g' := Set(g, p, who);
    WindowSurvivesSet(g, who, r.start, d, 4, p);
    assert p == Offset(r.start, d, 4);
    WindowExtend(g', who, r.start, d, 4);
    WindowWins(g', who, WIN_LENGTH, r.orientation, r.start);
  }

  /** A free candidate cell of a run of four completes five: even positions
      lie before a run's start, odd ones after its end. */
  lemma {:induction false} CandidateCompletesFive(g: Grid, who: int, runs: seq<Run>, x: int)
    requires IsSquare(g) && |g| > 0 && 0 <= x < |Candidates(runs)|
    requires IsRun(g, who, WIN_LENGTH - 1, runs[x / 2])
    requires CheckPointEmpty(g, Candidates(runs)[x])
    ensures CheckWinner(Set(g, Candidates(runs)[x], who), who, WIN_LENGTH).winner == Some(who)
  {
    var i := x / 2;
    if x == 2 * i {
      FiveFromBehind(g, who, runs[i]);
    } else {
      assert x == 2 * i + 1;
      FiveFromAhead(g, who, runs[i]);
    }
  }

  /** Putting `who` on the cell rule1/rule2 return gives `who` five in a row:
      the cell extends a run of four by one at its start or at its end. */
  lemma ExtendFourCompletesFive(g: Grid, who: int)
    requires IsSquare(g) && |g| > 0
    ensures ExtendFour(g, who).Some? ==>
      var p := ExtendFour(g, who).value;
      InGrid(g, p) && At(g, p) == 0 && CheckWinner(Set(g, p, who), who, WIN_LENGTH).winner == Some(who)
  {
    var out := CheckWinner(g, who, WIN_LENGTH - 1);
    if ExtendFour(g, who).Some? {
      var p := ExtendFour(g, who).value;
      var c := Candidates(out.runs);
      var x :| FirstFreeAt(g, c, x) && c[x] == p;
      RunsExact(g, who, WIN_LENGTH - 1, out.runs[x / 2]);
      CandidateCompletesFive(g, who, out.runs, x);
      CheckPointEmptyMeans(g, p);
    }
  }

  /** Both cells next to the run are free. */
  predicate OpenEnds(g: Grid, r: Run)
    requires IsSquare(g) && |g| > 0
  {
    CheckPointEmpty(g, Behind(r, 1)) && CheckPointEmpty(g, Ahead(r, 1))
  }

  /** What rule3 may answer for an open three: the start side when the cell
      beyond it is free too, else the end side when the cell beyond that is
      free, else either side. */
  predicate ThreeAnswer(g: Grid, r: Run, p: Point)
    requires IsSquare(g) && |g| > 0
  {
    && (p == Behind(r, 1) || p == Ahead(r, 1))
    && (CheckPointEmpty(g, Behind(r, 2)) ==> p == Behind(r, 1))
    && (!CheckPointEmpty(g, Behind(r, 2)) && CheckPointEmpty(g, Ahead(r, 2)) ==> p == Ahead(r, 1))
  }

  /** `runs[x]` is the first run with both ends free. */
  predicate FirstOpenAt(g: Grid, runs: seq<Run>, x: int)
    requires IsSquare(g) && |g| > 0
  {
    0 <= x < |runs| && OpenEnds(g, runs[x]) && forall y :: 0 <= y < x ==> !OpenEnds(g, runs[y])
  }

  /** The loop of rule3: the first run with both ends free decides. */
  function ExtendThreeScan(g: Grid, runs: seq<Run>, k: nat): (r: Option<Point>)
    requires IsSquare(g) && |g| > 0
    ensures r.Some? ==> exists x :: FirstOpenAt(g, runs, x) && ThreeAnswer(g, runs[x], r.value)
    ensures r.None? ==> forall x :: 0 <= x < |runs| ==> !OpenEnds(g, runs[x])
    ensures r.Some? ==> CheckPointEmpty(g, r.value)
  {
    if |runs| == 0 then None
    else
      var r := runs[0];
      if OpenEnds(g, r) then
        if CheckPointEmpty(g, Behind(r, 2)) then Some(Behind(r, 1))
        else if CheckPointEmpty(g, Ahead(r, 2)) then Some(Ahead(r, 1))
        else Some(Choose([Behind(r, 1), Ahead(r, 1)], k))
      else
        var rest := ExtendThreeScan(g, runs[1..], k);
        assert forall x :: 1 <= x < |runs| ==> runs[x] == runs[1..][x - 1];
        assert rest.Some? ==> exists x :: FirstOpenAt(g, runs, x) && ThreeAnswer(g, runs[x], rest.value) by {
          if rest.Some? {
            var x :| FirstOpenAt(g, runs[1..], x) && ThreeAnswer(g, runs[1..][x], rest.value);
            assert FirstOpenAt(g, runs, x + 1);
          }
        }
        rest
  }

  /** `rule3`: extend the AI's own open three. */
  function Rule3(g: Grid, aiPlayer: int, k: nat): (r: Option<Point>)
    requires IsSquare(g) && |g| > 0
    ensures r.Some? ==> InGrid(g, r.value) && At(g, r.value) == 0
  {
    var out := CheckWinner(g, aiPlayer, WIN_LENGTH - 2);
    if out.winner == Some(aiPlayer) then
      ExtendThreeScan(g, out.runs, k)
    else None
  }

  /** Which cell rule3 returns: the answer for the first of the AI's threes
      (in scan order) with both ends free; nothing when no three has. */
  lemma Rule3FirstOpenThree(g: Grid, aiPlayer: int, k: nat)
    requires IsSquare(g) && |g| > 0
    ensures var runs := Runs(g, aiPlayer, WIN_LENGTH - 2);
      && (Rule3(g, aiPlayer, k).Some? ==>
            exists x :: FirstOpenAt(g, runs, x) && ThreeAnswer(g, runs[x], Rule3(g, aiPlayer, k).value))
      && (Rule3(g, aiPlayer, k).None? && aiPlayer != 0 ==> forall x :: 0 <= x < |runs| ==> !OpenEnds(g, runs[x]))
  {
  }

  /** When neither cell beyond an open three is free, both ends are possible answers. */
  lemma Rule3EitherEnd(g: Grid, r: Run)
    requires IsSquare(g) && |g| > 0 && OpenEnds(g, r)
    requires !CheckPointEmpty(g, Behind(r, 2)) && !CheckPointEmpty(g, Ahead(r, 2))
    ensures ExtendThreeScan(g, [r], 0) == Some(Behind(r, 1))
    ensures ExtendThreeScan(g, [r], 1) == Some(Ahead(r, 1))
  {
  }

  /** An open three worth blocking: both ends free and room for five beyond one of them. */
  predicate Threat(g: Grid, r: Run)
    requires IsSquare(g) && |g| > 0
  {
    OpenEnds(g, r) && (CheckPointEmpty(g, Behind(r, 2)) || CheckPointEmpty(g, Ahead(r, 2)))
  }

  /** `runs[x]` is the first threatening run. */
  predicate FirstThreatAt(g: Grid, runs: seq<Run>, x: int)
    requires IsSquare(g) && |g| > 0
  {
    0 <= x < |runs| && Threat(g, runs[x]) && forall y :: 0 <= y < x ==> !Threat(g, runs[y])
  }

  /** `p` is one of the two cells next to the run. */
  predicate AtAnEnd(r: Run, p: Point) {
    p == Behind(r, 1) || p == Ahead(r, 1)
  }

  /** The loop of rule4: the first threatening three is blocked at either end. */
  function BlockThreeScan(g: Grid, runs: seq<Run>, k: nat): (r: Option<Point>)
    requires IsSquare(g) && |g| > 0
    ensures r.Some? ==> exists x :: FirstThreatAt(g, runs, x) && AtAnEnd(runs[x], r.value)
    ensures r.None? ==> forall x :: 0 <= x < |runs| ==> !Threat(g, runs[x])
    ensures r.Some? ==> CheckPointEmpty(g, r.value)
  {
    if |runs| == 0 then None
    else
      var r := runs[0];
      if Threat(g, r) then Some(Choose([Behind(r, 1), Ahead(r, 1)], k))
      else
        var rest := BlockThreeScan(g, runs[1..], k);
        assert forall x :: 1 <= x < |runs| ==> runs[x] == runs[1..][x - 1];
        assert rest.Some? ==> exists x :: FirstThreatAt(g, runs, x) && AtAnEnd(runs[x], rest.value) by {
          if rest.Some? {
            var x :| FirstThreatAt(g, runs[1..], x) && AtAnEnd(runs[1..][x], rest.value);
            assert FirstThreatAt(g, runs, x + 1);
          }
        }
        rest
  }

  /** `rule4`: block the opponent's open three. */
  function Rule4(g: Grid, humanPlayer: int, k: nat): (r: Option<Point>)
    requires IsSquare(g) && |g| > 0
    ensures r.Some? ==> InGrid(g, r.value) && At(g, r.value) == 0
  {
    var out := CheckWinner(g, humanPlayer, WIN_LENGTH - 2);
    if out.winner == Some(humanPlayer) then
      BlockThreeScan(g, out.runs, k)
    else None
  }

  /** rule4 answers exactly when the opponent has a threatening three, and
      then at one of the ends of the first such three; a three whose free
      ends have nothing free beyond them is left alone. */
  lemma Rule4OnlyThreats(g: Grid, humanPlayer: int, k: nat)
    requires IsSquare(g) && |g| > 0
    ensures var runs := Runs(g, humanPlayer, WIN_LENGTH - 2);
      && (Rule4(g, humanPlayer, k).Some? ==>
            exists x :: FirstThreatAt(g, runs, x) && AtAnEnd(runs[x], Rule4(g, humanPlayer, k).value))
      && ((forall x :: 0 <= x < |runs| ==> !Threat(g, runs[x])) ==> Rule4(g, humanPlayer, k).None?)
    ensures var runs := Runs(g, humanPlayer, WIN_LENGTH - 2);
      humanPlayer != 0 && (exists x :: 0 <= x < |runs| && Threat(g, runs[x])) ==> Rule4(g, humanPlayer, k).Some?
  {
  }

  /** The rule chain without the random fallback, as the MCTS engine runs it:
      the first rule that answers decides, rules 2 and 4 looking at the
      opponent's stones. */
  function Rules1To4(g: Grid, aiPlayer: int, k: nat): (r: Option<Point>)
    requires IsSquare(g) && |g| > 0
    ensures r.Some? ==> InGrid(g, r.value) && At(g, r.value) == 0
    ensures Rule1(g, aiPlayer).Some? ==> r == Rule1(g, aiPlayer)
    ensures Rule1(g, aiPlayer).None? && Rule2(g, Opponent(aiPlayer)).Some? ==> r == Rule2(g, Opponent(aiPlayer))
    ensures Rule1(g, aiPlayer).None? && Rule2(g, Opponent(aiPlayer)).None? && Rule3(g, aiPlayer, k).Some?
      ==> r == Rule3(g, aiPlayer, k)
    ensures Rule1(g, aiPlayer).None? && Rule2(g, Opponent(aiPlayer)).None? && Rule3(g, aiPlayer, k).None?
      ==> r == Rule4(g, Opponent(aiPlayer), k)
    ensures r.None? <==> (Rule1(g, aiPlayer).None? && Rule2(g, Opponent(aiPlayer)).None?
                          && Rule3(g, aiPlayer, k).None? && Rule4(g, Opponent(aiPlayer), k).None?)
    ensures Rule1(g, aiPlayer).Some? ==> CheckWinner(Set(g, r.value, aiPlayer), aiPlayer, WIN_LENGTH).winner == Some(aiPlayer)
    ensures Rule1(g, aiPlayer).None? && Rule2(g, Opponent(aiPlayer)).Some? ==>
      CheckWinner(Set(g, r.value, Opponent(aiPlayer)), Opponent(aiPlayer), WIN_LENGTH).winner == Some(Opponent(aiPlayer))
  {
    var humanPlayer := Opponent(aiPlayer);
    var r1 := Rule1(g, aiPlayer);
    if r1.Some? then r1
    else
      var r2 := Rule2(g, humanPlayer);
      if r2.Some? then r2
      else
        var r3 := Rule3(g, aiPlayer, k);
        if r3.Some? then r3
        else Rule4(g, humanPlayer, k)
  }

  /** `RuleStrategy.model`: the first rule that answers, else the random fallback. */
  function Model(g: Grid, aiPlayer: int, k: nat): (r: Result<Point>)
    requires IsSquare(g) && |g| > 0
    ensures r.Ok? ==> InGrid(g, r.value) && At(g, r.value) == 0
    ensures r.Err? <==> Full(g)
  {
    match Rules1To4(g, aiPlayer, k)
    case Some(p) => Ok(p)
    case None => RandomStrategy.Model(g, aiPlayer, k)
  }

  /** The chain's priority: each rule is consulted only when every earlier one
      is silent; rule2 and rule4 look at the opponent, `1 if ai == 2 else 2`. */
  lemma ModelPriority(g: Grid, aiPlayer: int, k: nat)
    requires IsSquare(g) && |g| > 0
    ensures Rule1(g, aiPlayer).Some? ==> Model(g, aiPlayer, k) == Ok(Rule1(g, aiPlayer).value)
    ensures Rule1(g, aiPlayer).None? && Rule2(g, Opponent(aiPlayer)).Some? ==>
      Model(g, aiPlayer, k) == Ok(Rule2(g, Opponent(aiPlayer)).value)
    ensures Rule1(g, aiPlayer).None? && Rule2(g, Opponent(aiPlayer)).None? && Rule3(g, aiPlayer, k).Some? ==>
      Model(g, aiPlayer, k) == Ok(Rule3(g, aiPlayer, k).value)
    ensures (Rule1(g, aiPlayer).None? && Rule2(g, Opponent(aiPlayer)).None? && Rule3(g, aiPlayer, k).None?
             && Rule4(g, Opponent(aiPlayer), k).Some?) ==> Model(g, aiPlayer, k) == Ok(Rule4(g, Opponent(aiPlayer), k).value)
    ensures Rules1To4(g, aiPlayer, k).None? ==> Model(g, aiPlayer, k) == RandomStrategy.Model(g, aiPlayer, k)
  {
  }

  /** When the AI can complete five it does so, even if the opponent also has
      a four to block: the move returned wins the game. */
  lemma OwnWinBeforeBlock(g: Grid, aiPlayer: int, k: nat)
    requires IsSquare(g) && |g| > 0 && ExtendFour(g, aiPlayer).Some?
    ensures Model(g, aiPlayer, k).Ok?
    ensures CheckWinner(Set(g, Model(g, aiPlayer, k).value, aiPlayer), aiPlayer, WIN_LENGTH).winner == Some(aiPlayer)
  {
    assert Rule1(g, aiPlayer).Some?;
  }
}
