/**
 * The "keep the first strictly better candidate" scan that both agents run over
 * the root's children (`best_w`/`best_move` in mcts.py, `best_count`/`best_move`
 * in random_rollouts.py), as a function of the scores seen so far.
 */
module Argmax {
  import opened Common

  /**
   * The choice after scanning `xs` from the left, starting from the score `floor`
   * and replacing the choice only when a score is strictly greater than the best.
   */
  function FirstMax(xs: seq<real>, floor: real): (k: Option<nat>)
    decreases |xs|
    ensures k.None? <==> forall i :: 0 <= i < |xs| ==> xs[i] <= floor
    ensures k.Some? ==> k.value < |xs| && xs[k.value] > floor
    ensures k.Some? ==> forall i :: 0 <= i < |xs| ==> xs[i] <= xs[k.value]
    ensures k.Some? ==> forall i :: 0 <= i < k.value ==> xs[i] < xs[k.value]
  {
    if |xs| == 0 then None
    else
      var k := FirstMax(xs[..|xs| - 1], floor);
      if xs[|xs| - 1] > Best(xs[..|xs| - 1], floor, k) then Some(|xs| - 1) else k
  }

  /** The best score held by the scan: the chosen one, or `floor` when none is chosen. */
  function Best(xs: seq<real>, floor: real, k: Option<nat>): real
  {
    if k.Some? && k.value < |xs| then xs[k.value] else floor
  }

  /** One more candidate extends the scan exactly as the agents' loop body does. */
  lemma FirstMaxSnoc(xs: seq<real>, x: real, floor: real)
    ensures FirstMax(xs + [x], floor)
         == (if x > Best(xs, floor, FirstMax(xs, floor)) then Some(|xs|) else FirstMax(xs, floor))
  {
    assert (xs + [x])[..|xs|] == xs;
  }

  /** When every score beats the starting score, the scan keeps a candidate exactly when there is one. */
  lemma FirstMaxAboveFloor(xs: seq<real>, floor: real)
    requires forall i :: 0 <= i < |xs| ==> xs[i] > floor
    ensures FirstMax(xs, floor).Some? <==> xs != []
  {
    if xs != [] {
      assert xs[0] > floor;
    }
  }

  /** The element at position `k`, if any: the move kept by an argmax loop. */
  function Pick<T>(xs: seq<T>, k: Option<nat>): Option<T>
    requires k.Some? ==> k.value < |xs|
  {
    if k.Some? then Some(xs[k.value]) else None
  }

  /** `best` and `score` are what the scan keeps after the scores `xs` of `moves`. */
  ghost predicate Kept<T>(moves: seq<T>, xs: seq<real>, floor: real, best: Option<T>, score: real)
  {
    |xs| <= |moves| && best == Pick(moves, FirstMax(xs, floor)) && score == Best(xs, floor, FirstMax(xs, floor))
  }

  lemma KeptStep<T>(moves: seq<T>, xs: seq<real>, floor: real, best: Option<T>, score: real, x: real)
    requires Kept(moves, xs, floor, best, score) && |xs| < |moves|
    ensures Kept(moves, xs + [x], floor, if x > score then Some(moves[|xs|]) else best, if x > score then x else score)
  {
    ScanStep(moves, xs, x, floor);
  }

  /**
   * One iteration of an agent's loop: candidate `x`, at position `|xs|` of `moves`,
   * replaces the kept move and the best score exactly when it beats the best score.
   */
  lemma ScanStep<T>(moves: seq<T>, xs: seq<real>, x: real, floor: real)
    requires |xs| < |moves|
    ensures Best(xs + [x], floor, FirstMax(xs + [x], floor))
         == (if x > Best(xs, floor, FirstMax(xs, floor)) then x else Best(xs, floor, FirstMax(xs, floor)))
    ensures Pick(moves, FirstMax(xs + [x], floor))
         == (if x > Best(xs, floor, FirstMax(xs, floor)) then Some(moves[|xs|]) else Pick(moves, FirstMax(xs, floor)))
  {
    FirstMaxSnoc(xs, x, floor);
  }
}
