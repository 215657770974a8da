/**
 * The engine's only source of randomness, `random.choice`, and the UCT choice of
 * MCTS selection, replaced by an injected chooser. Nothing about probabilities is
 * modelled: a draw is any index the contract allows.
 */
module Chance {
  import opened Common

  class Chooser {
    /** Raw draws, consumed one per choice; an exhausted stream always yields index 0. */
    var draws: seq<nat>

    constructor (draws: seq<nat>)
      ensures this.draws == draws
    {
      this.draws := draws;
    }

    /** Stands for `random.choice` over a list of `len` elements: some index below `len`. */
    method Choose(len: nat) returns (i: nat)
      requires len > 0
      modifies this
      ensures i < len
    {
      if draws == [] {
        i := 0;
      } else {
        i := draws[0] % len;
        draws := draws[1..];
      }
    }

    /**
     * Stands for the UCT scan of `MCTS.selection` over `len` visited children, which
     * starts from `best_uct = 0` with a strict `>` and so may end without a child.
     */
    method PickBest(len: nat) returns (i: Option<nat>)
      modifies this
      ensures i.Some? ==> i.value < len
    {
      if draws == [] || draws[0] >= len {
        i := None;
      } else {
        i := Some(draws[0]);
      }
      if draws != [] {
        draws := draws[1..];
      }
    }
  }
}
