# Connect Four game-tree search, modelled in Dafny

A Connect Four engine with two computer players:

- The board rules are in `connect4.py`. A `State` is a 7 x 6 grid of Empty, Red and Yellow cells plus the side to move.
  - `move` drops a piece into the lowest free row of a column and hands the turn over.
  - `available_moves` lists the columns that are not full.
  - `winner` scans the four line directions for four in a row.
  - `copy` clones a state.
  - A `Node` wraps a copy of a state, and `Node.expand` hangs one child per legal column under it.
  - The default `Player.move` plays the first legal column.
- The Monte Carlo tree search player is in `mcts.py`.
  - Its nodes carry the move that led to them, a visit count `n` and a win value `w`.
  - For every child of the root it runs `walks` rounds of selection, expansion, random simulation and backpropagation.
  - It then plays the column whose child has the strictly greatest `w`.
- The random-rollout player is in `random_rollouts.py`.
  - For every legal column it plays `walks` random games from the board that column leads to.
  - It counts the games the side to move wins.
  - It plays the first column with the highest count.

The Dafny modules follow those files:

| module | file | contents |
|---|---|---|
| `Common` | `common.dfy` | `Option`, `Result` and the ways a move can fail (`Error`) |
| `Connect4` | `connect4.dfy` | the board as a value (`Board`, `Play`, `AvailableMoves`, `Winner`, `Replay`); the `State` class over a 7 x 6 `array2` updated in place; `Connect4.Node` and its `Expand` loop; the default player |
| `Chance` | `chance.dfy` | `Chooser`, the injected source of `random.choice` draws and of the UCT choice |
| `Argmax` | `argmax.dfy` | the "keep the first strictly better score" scan both players run over the root's children, as a function `FirstMax` of the scores |
| `Mcts` | `mcts.dfy` | `Mcts.Node` with `n`, `w` and `children` fields; expansion, selection, simulation, backpropagation; the move |
| `RandomRollouts` | `random_rollouts.dfy` | `random_walk` (as written and corrected), the win counting and the move (as written and corrected) |

Here is how the source's pieces are represented:

- A Python exception becomes an `Err` of a `Result`:
  - `FullColumn`: `move` on a full column.
  - `EmptyChoice`: `random.choice` or indexing of an empty list.
  - `NoneChild`: using the `None` that the UCT scan can leave behind.
  - `MissingMove`: reading `child.move` on a `connect4.Node`.
- Game trees are objects linked by `parent` pointers.
  - Each node owns a copy of its board, taken when it is created and never changed afterwards. The model therefore stores that copy as an immutable `Board` value.
  - The MCTS tree invariant is stated over the ghost set of all nodes created so far, `Mcts.Valid(nodes)`. It says:
    - every node has a proper side to move;
    - its parent is one level up;
    - `0 <= w <= n`;
    - its children are exactly the ones `expand` creates.
- The players' results are stated against specification functions:
  - `Replay` plays a sequence of columns.
  - `Decide` is the game outcome with a Tie.
  - `FirstMax` is the argmax scan.
  - `Wins` counts the won final boards.
  - `Rewards` sums the rewards of final boards, the way `backpropagate` adds them to a child's `w`.
  - `PlayedOut` says that a board is the first decided board of a game played by legal moves from another.
- Randomness is an injected `Chance.Chooser`. All that is assumed of a draw is that it is a valid index.

## Model

| member | source | states |
|---|---|---|
| `Connect4.Initial` | connect4.py:30-33 | every cell Empty and Red to move, so every column is a legal move |
| `Connect4.Flip` | connect4.py:55 | the side to move after a move is a colour, never Empty, and never the side that just moved |
| `Connect4.FreeRows` | connect4.py:44-47 | the free rows of a column are ascending, every one of them is Empty, and every Empty row of the column is among them |
| `Connect4.FreeRowsBelow` | connect4.py:44-47 | the free-row list is ascending and holds exactly the Empty rows of the column |
| `Connect4.Put` | connect4.py:54 | setting one cell changes that cell and no other |
| `Connect4.Play` | connect4.py:38-55 | a move fails with `FullColumn(col)` exactly when the column has no Empty cell; on success the side to move is flipped (Red to Yellow, otherwise to Red) |
| `Connect4.PlayAtLowestEmpty` | connect4.py:44-55 | a successful move changes exactly the lowest Empty cell of the column, to the mover's colour, and nothing else |
| `Connect4.LowestEmptyExists` | connect4.py:44-50 | a column that is not full has a lowest Empty cell, so a move into it does not raise |
| `Connect4.PlayKeepsGravity` | connect4.py:44-54 | if every column's pieces are stacked from row 0 before a move, they are after it |
| `Connect4.PlayAddsOnePiece` | connect4.py:52-54 | a successful move adds exactly one piece |
| `Connect4.Pieces` | connect4.py:52-54 | a board holds at most 42 pieces |
| `Connect4.AvailableBelow` | connect4.py:57-61 | the columns below a bound that are not full, strictly ascending, and no others |
| `Connect4.AvailableMoves` | connect4.py:57-61 | `available_moves` is strictly ascending and holds exactly the columns with an Empty cell |
| `Connect4.AvailableMovesArePlayable` | connect4.py:44-61 | a column is offered by `available_moves` if and only if `move` accepts it |
| `Connect4.AllFullNoMoves` | connect4.py:57-61 | with every column full no move is offered |
| `Connect4.NoMovesIffFull` | connect4.py:57-61 | no move is offered exactly when all 42 cells are occupied |
| `Connect4.LineAt` | connect4.py:67-71 | the test `winner` applies at one start cell holds exactly when four cells of that cell's colour start there along the direction |
| `Connect4.ScanFrom` | connect4.py:65-102 | the rest of one direction's double loop, resumed at a cell: whatever it returns is a colour, never Empty |
| `Connect4.Scan` | connect4.py:65-102 | one direction's double loop: whatever it returns is a colour, never Empty |
| `Connect4.Winner` | connect4.py:63-105 | the four directions in the source's order, horizontal first: whatever `winner` returns is a colour, never Empty |
| `Connect4.FitsInScanRange` | connect4.py:64-102 | every line on the board starts inside the loop ranges `winner` scans for its direction |
| `Connect4.ScanFromSound` | connect4.py:64-102 | a colour returned by one of the scans has four in a row |
| `Connect4.ScanFromComplete` | connect4.py:64-102 | a scan resumed at a cell finds something if a line starts at or after that cell |
| `Connect4.WinnerSound` | connect4.py:63-102 | a colour `winner` reports is not Empty and has four in a row horizontally, vertically or diagonally |
| `Connect4.WinnerComplete` | connect4.py:63-102 | whenever a colour has four in a row, `winner` does not return None |
| `Connect4.WinnerNoneIffNoLine` | connect4.py:63-105 | `winner` returns None exactly when no colour has four in a row, whether or not the board is full |
| `Connect4.PlayKeepsLines` | connect4.py:52-54 | a move never breaks an existing line |
| `Connect4.PutKeepsLine` | connect4.py:54 | filling an Empty cell leaves every line in place |
| `Connect4.DecideMeaning` | mcts.py:18-22 | the outcome `Decide` gives, with a Tie: a win only for a colour with a line; Tie exactly on a full board without a line; undecided exactly when there is no line and a legal move |
| `Connect4.ReplayStep` | connect4.py:38-61 | a legal column played after a path is accepted; the new path is the old one with that column appended, its replay is the old replay followed by that move, and the move adds one piece |
| `Connect4.OpenAlongSnoc` | mcts.py:78-79 | a playout that has seen only undecided boards and stands on an undecided board may play one more column and still has seen only undecided boards before each move |
| `Connect4.OpenAlongStart` | mcts.py:78 | a playout that makes at least one move starts from an undecided board |
| `Connect4.PlayedOutFromDecided` | mcts.py:78 | a playout from a board that is already decided plays no move and ends on that board |
| `Connect4.ReplayAppend` | connect4.py:38-55 | playing `p` and then `q` is the same as playing `p + q` |
| `Connect4.ReplayAlternates` | connect4.py:54-55 | after a sequence of legal moves the side to move is the starting side exactly when the number of moves is even |
| `Connect4.ReplayStacks` | connect4.py:44-54 | a sequence of legal moves adds one piece per move and keeps every column stacked |
| `Connect4.ReplayKeepsLines` | connect4.py:52-102 | once a colour has a line, it keeps one after any sequence of moves |
| `Connect4.DrawnGridNoHorizontal` | connect4.py:64-72 | the drawn grid has no horizontal line |
| `Connect4.DrawnGridNoVertical` | connect4.py:74-82 | the drawn grid has no vertical line |
| `Connect4.DrawnGridNoFalling` | connect4.py:84-92 | the drawn grid has no nw-se line |
| `Connect4.DrawnGridNoRising` | connect4.py:94-102 | the drawn grid has no sw-ne line |
| `Connect4.DrawnGridFull` | connect4.py:57-61 | every column of the drawn grid is full |
| `Connect4.DrawnGridNoMoves` | connect4.py:57-61 | the drawn grid offers no legal column |
| `Connect4.DrawnGridNoWinner` | connect4.py:63-105 | `winner` returns None on the drawn grid |
| `Connect4.DrawnBoardIsStuck` | connect4.py:57-105 | on the drawn grid `winner` returns None and no column is legal |
| `Connect4.DropOnto` | connect4.py:44-55 | on a board reached by legal moves that holds the bottom of a full grid, dropping the grid's next piece of a column, when it is the mover's, is a legal move that adds exactly that cell |
| `Connect4.DrawnGridReachable` | connect4.py:30-55 | the drawn grid, with Red to move, is reached from the empty board by 42 legal alternating moves |
| `Connect4.NoWinnerOnTheWay` | connect4.py:52-105 | if a game ends without a winner, `winner` returned None on every board along the way |
| `Connect4.DrawnGameExists` | connect4.py:57-105 | some game from the empty board never has a winner and ends on a board where no column is legal |
| `Connect4.State.constructor` | connect4.py:30-33 | a new state holds the empty board with Red to move, in a fresh array |
| `Connect4.State.FromBoard` | connect4.py:107-112 | a state holding its own fresh array with the cells and side to move of the given board |
| `Connect4.State.Move` | connect4.py:38-55 | on a full column, returns `FullColumn` and changes nothing; otherwise the array holds the board after the move: the lowest Empty cell set to the mover's colour, every other cell unchanged, and the side to move flipped |
| `Connect4.State.Copy` | connect4.py:107-112 | a fresh state with a fresh array holding the same cells and side to move |
| `Connect4.MoveOnCopy` | connect4.py:107-112 | a move on a copy takes effect on the copy only; the original keeps its board |
| `Connect4.Node.constructor` | connect4.py:124-127 | a node holding the given parent and board, with no children generated |
| `Connect4.Node.Expand` | connect4.py:129-139 | replaces `children`, even when already generated, by fresh nodes, one per legal column in ascending order; child `i` points back to the node and holds the board after `available_moves()[i]` |
| `Connect4.NewChild` | connect4.py:134-139 | one iteration of `expand`: a fresh node under the parent holding the board after the column |
| `Connect4.DefaultMove` | connect4.py:151-152 | the lowest column `move` accepts; an error exactly when no column is accepted |
| `Chance.Chooser.Choose` | random_rollouts.py:55 | `random.choice` of a non-empty list: an index below its length |
| `Chance.Chooser.PickBest` | mcts.py:60-67 | the UCT scan over a node's children: a valid child index, or none |
| `Argmax.FirstMax` | mcts.py:39-54 | the kept position has a score above the starting score, at least every score, and strictly above every earlier score; nothing is kept exactly when no score beats the starting score |
| `Argmax.FirstMaxSnoc` | mcts.py:52-54 | one more score replaces the kept position exactly when it beats the best score so far |
| `Argmax.FirstMaxAboveFloor` | random_rollouts.py:38-49 | when every score beats the starting score, a position is kept exactly when there is a score |
| `Argmax.KeptStep` | random_rollouts.py:47-49 | the loop's update of the best move and best score keeps them equal to the scan's result |
| `Argmax.ScanStep` | mcts.py:52-54 | the scan's best score and move after one more candidate are those the loop body computes |
| `Mcts.Node.constructor` | mcts.py:112-118 | a node with the given parent, board and move, no children, `n = 0`, `w = 0`, one level below its parent |
| `Mcts.Node.Expand` | mcts.py:121-135 | does nothing when children exist; otherwise creates one fresh, unvisited child per legal column in ascending order, each tagged with its column and holding the board after it; the tree stays valid |
| `Mcts.Node.FullyExpanded` | mcts.py:137-141 | leaves `children` generated, and answers true exactly when there are no children or every child has `n > 0` |
| `Mcts.NewChild` | mcts.py:131-135 | one iteration of `expand`: a fresh, unvisited node with the column as its move and the board after it |
| `Mcts.NewChildren` | mcts.py:128-135 | the whole loop of `expand`: one fresh, unvisited child per legal column, in order |
| `Mcts.ValidAfterExpand` | mcts.py:128-135 | giving an unexpanded node its expanded children keeps the tree invariant over the grown tree |
| `Mcts.AncestorsByDepth` | mcts.py:97-100 | the parent chain meets each depth at most once |
| `Mcts.AncestorsBelow` | mcts.py:97-100 | every ancestor lies at most as deep as the node, and each other than the node itself is an ancestor of its parent and lies strictly higher |
| `Mcts.AncestorsStep` | mcts.py:97-100 | the nodes `backpropagate` climbs through are the node itself and then its parent's, and the climb never returns to the node |
| `Mcts.AncestorsInTree` | mcts.py:97-100 | the parent chain of a tree node stays inside the tree |
| `Mcts.Reward` | mcts.py:84-93 | a half for a Tie, one when the winner is not the node's side to move, zero otherwise; always between 0 and 1 |
| `Mcts.Backpropagate` | mcts.py:82-100 | adds one to `n` on the node and on every ancestor up to the root, and its reward to `w`, with no other node changed; the tree invariant, including `0 <= w <= n`, is kept |
| `Mcts.Visit` | mcts.py:94-95 | one node's update: `n` rises by one and `w` by the reward, keeping the tree invariant |
| `Mcts.Unvisited` | mcts.py:72 | the children with `n == 0`, all of them and nothing else |
| `Mcts.ChildStep` | mcts.py:67 | stepping to child `k` appends the `k`-th legal column to the path of moves from the start; the child stays in the tree below the start, holds the board that path reaches, and has one more piece |
| `Mcts.PickUnvisited` | mcts.py:72 | the random choice among unvisited children yields a child with `n == 0` |
| `Mcts.Descend` | mcts.py:59-67 | follows the UCT choice down while the node is fully expanded with children; fails with `NoneChild` when the scan keeps no child; otherwise returns a node below the start, reached by legal moves, that has unvisited children or none; a children list already generated is never replaced |
| `Mcts.Selection` | mcts.py:57-73 | returns a node below the start, reached by legal moves, that is either a leaf or unvisited; the random branch yields an unvisited child; a children list already generated is never replaced |
| `Mcts.RandomMove` | mcts.py:79 | one playout step plays a legal column on the state |
| `Mcts.Simulate` | mcts.py:75-80 | plays legal moves on a copy and stops at the first decided board: the result is decided, reached from the node's board by the moves played, and every board before the last move was undecided; the node is unchanged |
| `Mcts.Walk` | mcts.py:44-47 | one round credits one visit and the reward of its final board to exactly the selected node and its ancestors, through the start, and leaves the tree valid; the selected node is reached from the start, and the decided final board from the selected node, by legal moves, with no decided board before it; a children list already generated is never replaced; on a `NoneChild` failure no counter changes |
| `Mcts.Playout` | mcts.py:45-47 | expansion, simulation to the first decided board reached by legal moves, and backpropagation of its reward from the selected node to the root; a children list already generated is never replaced |
| `Mcts.Walks` | mcts.py:43-47 | `walks` rounds add `walks` visits to the root child and add to its `w` the sum of the rewards of the `walks` final boards, each decided and reached from the child by legal moves; the other root children are untouched, and a children list already generated is never replaced |
| `Mcts.Rewards` | mcts.py:84-95 | the summed rewards of a list of final boards lie between 0 and the number of boards |
| `Mcts.RewardsSnoc` | mcts.py:94-95 | one more final board adds its reward to the sum |
| `Mcts.PlayedBelowSnoc` | mcts.py:43-47 | a decided board reached by legal moves extends the record of a child's walks |
| `Mcts.PlayedBelowAll` | mcts.py:43-47 | every recorded final board of a child's walks is decided and reached from the child's board by legal moves |
| `Mcts.InRangeSnoc` | mcts.py:42-54 | the scores stay between 0 and `walks`, and are 0 when `walks` is 0, as each child is scored |
| `Mcts.ScoreChild` | mcts.py:42-47 | the walks below one root child leave it with `n = walks` and a `w` that is the sum of the rewards of its `walks` final boards, each decided and reached from the child by legal moves, so between 0 and `walks`; the later children stay unvisited and the tree stays valid |
| `Mcts.ScoredUpToSnoc` | mcts.py:42-54 | scoring the next root child keeps the children scored so far scored, and adds the new one |
| `Mcts.ScoredBelow` | mcts.py:42-54 | each of the first `n` scored children has `walks` walks whose rewards sum to its score |
| `Mcts.ScoredAll` | mcts.py:42-54 | once every root child is scored, each legal column's score is the summed reward of `walks` decided final boards reached from the board after that column |
| `Mcts.SearchedStep` | mcts.py:42-54 | one iteration of the loop keeps the scores in range, the children's walk records, and the kept column and score equal to the first-maximum scan of the scores so far |
| `Mcts.SearchedDone` | mcts.py:52-55 | after the loop the kept column is the scan's choice over all scores, each score lies between 0 and `walks`, and no column is kept when `walks` is 0 |
| `Mcts.ScoreStep` | mcts.py:42-54 | one iteration of the loop over the root's children: it scores the next child and keeps its column exactly when its `w` beats the best so far, or fails with `NoneChild` |
| `Mcts.ScoreChildren` | mcts.py:39-55 | the loop over the root's children, from `best_w = 0` and no move: on success every child is scored and the kept column is the scan's choice |
| `Mcts.ChildrenDistinct` | mcts.py:130-135 | the children `expand` creates are distinct objects |
| `Mcts.Root` | mcts.py:36-37 | a fresh root for the board, expanded into unvisited children one level down |
| `Mcts.Search` | mcts.py:35-55 | each legal column's score is the sum of the rewards of `walks` final boards, each decided and reached by legal moves from the board after that column, so between 0 and `walks`; returns the first column with strictly greatest score above 0, or None when no score is above 0 (always so when `walks` is 0); fails only with `NoneChild` |
| `Mcts.Move` | mcts.py:35-55 | the search on the caller's board, with the same result |
| `RandomRollouts.RandomWalkAsWritten` | random_rollouts.py:52-56 | the walk as written stops at the first board with a winner: that board is reached by legal moves and no board before it has a winner; it fails with `EmptyChoice` exactly on a full board without a winner |
| `RandomRollouts.WinnerlessAlongSnoc` | random_rollouts.py:53-55 | a walk that has met no winner and stands on a board without one may take one more step and still has met no winner before each step |
| `RandomRollouts.RandomWalk` | random_rollouts.py:52-56 | the corrected walk stops at the first decided board, win or Tie: it is reached from the start by legal moves and every board before it is undecided |
| `RandomRollouts.Wins` | random_rollouts.py:43-44 | the number of won boards never exceeds the number of walks |
| `RandomRollouts.WinsSnoc` | random_rollouts.py:43-44 | one more walk adds one to the count exactly when `winner` gives the counted colour |
| `RandomRollouts.CountWins` | random_rollouts.py:41-44 | `count` is the number of the `walks` final boards won by the side to move, and every final board is the first decided board of a game played from the child by legal moves |
| `RandomRollouts.WinsAll` | random_rollouts.py:43-44 | when every final board is won by the counted colour, the count is the number of walks |
| `RandomRollouts.WinningColumnWinsAll` | random_rollouts.py:40-44 | a column that wins at once for the side to move gets every one of its walks counted, since each walk stops on the won board |
| `RandomRollouts.AsRealsSnoc` | random_rollouts.py:47-48 | appending a count appends its value to the scores the scan compares |
| `RandomRollouts.ScoredSnoc` | random_rollouts.py:40-44 | scoring the next legal column extends the scored prefix |
| `RandomRollouts.ScoreChild` | random_rollouts.py:40-49 | one iteration scores the next legal column and keeps the best move and count equal to the scan's result |
| `RandomRollouts.SearchKeepsAWinAll` | random_rollouts.py:38-49 | when some column wins at once, the search keeps a column and its count is `walks`, the highest possible |
| `RandomRollouts.Search` | random_rollouts.py:34-50 | every legal column is scored by the wins of the side to move over `walks` walks; the result is the first legal column with the highest count, and there is one exactly when a column is legal |
| `RandomRollouts.Move` | random_rollouts.py:34-50 | the search on the caller's board, with the same result |
| `RandomRollouts.MoveAsWritten` | random_rollouts.py:34-50 | the move as written fails with `MissingMove` exactly when a column is legal, and otherwise returns None |

## Left out

- `Chance.Chooser.PickBest`: the UCT formula of `MCTS.selection` is not modelled. It uses the square root, `log` and floating point. The oracle returns any child index, or none, which is what a scan starting from `best_uct = 0` with a strict `>` can leave. The `walk` argument only feeds that formula, so it is dropped.
- `Chance.Chooser.Choose`: nothing about probabilities is modelled; a draw is any index the contract allows.
- Printing is left out: `__str__`, the numpy `flipud`/`transpose` rendering and the `printing` diagnostics.
- The numpy float storage of cells is modelled as the enumeration `Cell`.
- The `Game` driver and `main.py` are left out. They are turn-alternation glue, console output and agent wiring.
- The unused `current_state` parameter of `backpropagate` is dropped.
- A column outside 0..6 cannot be passed, because `Column` is a subtype. The source would raise or wrap with a negative index.
- The `move` methods ignore their optional `player` argument and play `self.player`. The model has no such argument.
- The default `state=None` of both `Node` classes is not modelled. The source never uses it for a node below the root, and the players always pass a state.
- `walks` is a parameter. The sources fix it at 100 by default.
- `TIE` is imported by mcts.py but not defined in connect4.py, so importing mcts.py raises `ImportError`. The model supplies the Tie of `Connect4.Decide` instead (see Findings).
- `RandomRollouts.Wins`: its own contract only bounds the count by the number of walks. What the count means is stated by `WinsSnoc` and used by `CountWins`.
- `RandomRollouts.MoveAsWritten` plays its walks with the corrected `RandomWalk`, so that only the missing attribute shows.
- `Mcts.Node.Expand` builds the children list and then assigns it, where the source assigns `[]` first and appends. No other code runs in between, so the two are equivalent.

## Findings

| source | as written | input that shows it | evidently intended | confidence | as-written member | corrected member |
|---|---|---|---|---|---|---|
| random_rollouts.py:53-55 | `random_walk` loops while `winner()` is None, and `winner` also returns None on a full board without a line (connect4.py:104-105). There `expand` yields no children and `random.choice([])` raises. The `TIE` that mcts.py imports for the same case (mcts.py:21, 85) is not defined in connect4.py. | a walk that follows the 42-move game of `Connect4.DrawnGameExists`, which ends on a full board where no colour has four in a row (`Connect4.DrawnGrid`) | stop on a drawn board and treat it as a Tie | not executed | `RandomRollouts.RandomWalkAsWritten`, `Connect4.DrawnBoardIsStuck`, `Connect4.DrawnGameExists` | `RandomRollouts.RandomWalk`, `Connect4.DecideMeaning`, `Mcts.Simulate` |
| random_rollouts.py:47-49 | `best_move = child.move` reads an attribute that `connect4.Node` does not have (connect4.py:124-127). The first child's count is at least 0, so it always beats `best_count = -1`, and the move raises `AttributeError` whenever a column is legal. | any board with a legal column, such as the empty board | the column that led to the child, which is the child's position in `available_moves()` | not executed | `RandomRollouts.MoveAsWritten` | `RandomRollouts.Search`, `RandomRollouts.Move` |

Modelled as written, without a correction: `MCTS.move` starts from `best_w = 0` with a strict `>`. So it returns None when no root child has `w > 0`, in particular when `walks` is 0 (`Mcts.Search`).
