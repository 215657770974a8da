/** Optional values, results and the failures the engine raises. */
module Common {

  datatype Option<T> = None | Some(value: T)

  /** The exceptions the engine can raise, each named after what triggers it. */
  datatype Error =
    | FullColumn(col: nat) // `State.move` on a column without an Empty cell (ValueError)
    | EmptyChoice          // `random.choice([])` or `available_moves()[0]` on an empty list
    | NoneChild            // MCTS selection left `best_child` as None and then used it
    | MissingMove          // `child.move` read from a `connect4.Node`, which has no such attribute

  datatype Result<T> = Ok(value: T) | Err(error: Error)
}
