/** Shared vocabulary: optional values, the failures the engine can raise,
    the model of `random.choice`, and the player swap used throughout. */
module Basics {

  datatype Option<T> = None | Some(value: T)

  /** The exceptions the Python code raises on the paths that are modelled. */
  datatype Error =
    | AssertionFailed   // an `assert` in the source fails
    | IndexOutOfRange   // a list index past the end (Python IndexError)
    | OccupiedCell      // `put` on a non-empty cell (ValueError)
    | GameOver          // `proceed` after a result is known (ValueError)
    | EmptyChoice       // `random.choice` of an empty list (IndexError)
    | DetachedNode      // walking parent links reaches None before the root (AttributeError)
    | NoAction          // unpacking the empty action of a node that never moved (ValueError)

  datatype Result<T> = Ok(value: T) | Err(error: Error)

  /** `random.choice(xs)`: the element returned is the one the random source
      selects; `k` stands for that selection, so quantifying over `k` gives
      exactly the set of possible outcomes (see ChooseReachesEvery). */
  function Choose<T>(xs: seq<T>, k: nat): (x: T)
    requires |xs| > 0
    ensures x in xs
  {
    xs[k % |xs|]
  }

  /** Every element of the list is a possible outcome of `random.choice`. */
  lemma ChooseReachesEvery<T>(xs: seq<T>, i: nat)
    requires i < |xs|
    ensures Choose(xs, i) == xs[i]
  {
  }

  /** `1 if p == 2 else 2`, the player swap written out in the source
      (gobang.py, rule_strategy.py and mcts_strategy.py all use this form). */
  function Opponent(p: int): (q: int)
    ensures q == 1 || q == 2
    ensures p == 1 || p == 2 ==> q == 3 - p && q != p && (if q == 2 then 1 else 2) == p
  {
    if p == 2 then 1 else 2
  }
}
