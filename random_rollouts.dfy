/**
 * The random-rollout agent (`RandomRollout`): for every legal column it plays
 * `walks` random games from the board that column leads to, counts the games won by
 * the side to move, and plays the column with the most wins, the first one on ties.
 * The search tree is made of `Connect4.Node`s, which `random_walk` expands on the way
 * down; `tree` and every node below it are allocated by the move itself.
 */
module RandomRollouts {
  import opened Common
  import opened Connect4
  import opened Chance
  import opened Argmax

  /**
   * `random_walk` as written: expands the node and moves to a random child for as
   * long as `winner` reports nobody. On a full board without four in a row `winner`
   * keeps reporting nobody while the expanded node has no children, and
   * `random.choice` of the empty list raises.
   */
  method RandomWalkAsWritten(node: Node, rng: Chooser)
    returns (r: Result<Node>, ghost path: seq<Column>, ghost reached: Board)
    requires node.state.player != Empty
    modifies node`children, rng
    ensures Replay(node.state, path) == Ok(reached) && WinnerlessAlong(node.state, path)
    ensures r.Ok? ==> r.value.state == reached && Winner(reached.grid).Some?
    ensures r.Err? ==> r.error == EmptyChoice && Winner(reached.grid) == None && AvailableMoves(reached) == []
  {
    var cur := node;
    path := [];
    while Winner(cur.state.grid) == None
      invariant cur.state.player != Empty && (cur == node || fresh(cur))
      invariant Replay(node.state, path) == Ok(cur.state) && WinnerlessAlong(node.state, path)
      decreases Columns * Rows - Pieces(cur.state.grid)
    {
      cur.Expand();
      var children := cur.children.value;
      if children == [] {
        r, reached := Err(EmptyChoice), cur.state;
        return;
      }
      var i := rng.Choose(|children|);
      WinnerlessAlongSnoc(node.state, path, AvailableMoves(cur.state)[i]);
      path := ReplayStep(node.state, path, cur.state, AvailableMoves(cur.state)[i]);
      cur := children[i];
    }
    r, reached := Ok(cur), cur.state;
  }

  /** `winner` reports nobody on every board before the last one along `path` from `from`. */
  ghost predicate WinnerlessAlong(from: Board, path: seq<Column>)
  {
    forall i :: 0 <= i < |path| ==> Replay(from, path[..i]).Ok? && Winner(Replay(from, path[..i]).value.grid) == None
  }

  lemma WinnerlessAlongSnoc(from: Board, path: seq<Column>, col: Column)
    requires WinnerlessAlong(from, path) && Replay(from, path).Ok? && Winner(Replay(from, path).value.grid) == None
    ensures WinnerlessAlong(from, path + [col])
  {
    var path' := path + [col];
    forall i | 0 <= i < |path'|
      ensures Replay(from, path'[..i]).Ok? && Winner(Replay(from, path'[..i]).value.grid) == None
    {
      assert path'[..i] == path[..i];
    }
  }

  /**
   * `random_walk` stopping where the game is over, on a Tie as well as on a win:
   * the node it returns holds the first decided board of a game played from
   * `node` by legal moves.
   */
  method RandomWalk(node: Node, rng: Chooser) returns (leaf: Node, ghost path: seq<Column>)
    requires node.state.player != Empty
    modifies node`children, rng
    ensures Decide(leaf.state) != Undecided
    ensures Replay(node.state, path) == Ok(leaf.state) && OpenAlong(node.state, path)
  {
    leaf := node;
    path := [];
    while Decide(leaf.state) == Undecided
      invariant leaf.state.player != Empty && (leaf == node || fresh(leaf))
      invariant Replay(node.state, path) == Ok(leaf.state) && OpenAlong(node.state, path)
      decreases Columns * Rows - Pieces(leaf.state.grid)
    {
      leaf.Expand();
      var children := leaf.children.value;
      var i := rng.Choose(|children|);
      OpenAlongSnoc(node.state, path, AvailableMoves(leaf.state)[i]);
      path := ReplayStep(node.state, path, leaf.state, AvailableMoves(leaf.state)[i]);
      leaf := children[i];
    }
  }

  /** How many of the boards `finals` `winner` awards to `p`. */
  function Wins(finals: seq<Board>, p: Cell): (n: nat)
    ensures n <= |finals|
  {
    if finals == [] then 0
    else Wins(finals[..|finals| - 1], p) + (if Winner(finals[|finals| - 1].grid) == Some(p) then 1 else 0)
  }

  /** Counting one more final board. */
  lemma WinsSnoc(finals: seq<Board>, b: Board, p: Cell)
    ensures Wins(finals + [b], p) == Wins(finals, p) + (if Winner(b.grid) == Some(p) then 1 else 0)
  {
    assert (finals + [b])[..|finals|] == finals;
  }

  /** Every board of `finals` ends a game played out after playing `col` on `b`: its first decided board. */
  ghost predicate WalkedFrom(b: Board, col: Column, finals: seq<Board>)
  {
    Play(b, col).Ok? &&
    forall j :: 0 <= j < |finals| ==> PlayedOut(Play(b, col).value, finals[j])
  }

  /**
   * The inner loop of `RandomRollout.move`: `walks` walks from `child`, counting
   * those that end with `p` as the winner; `finals` are the boards they end on.
   */
  method CountWins(child: Node, p: Cell, walks: nat, rng: Chooser)
    returns (count: nat, ghost finals: seq<Board>)
    requires child.state.player != Empty
    modifies child`children, rng
    ensures |finals| == walks && count == Wins(finals, p)
    ensures forall j :: 0 <= j < walks ==> PlayedOut(child.state, finals[j])
  {
    count := 0;
    finals := [];
    for i := 0 to walks
      invariant |finals| == i && count == Wins(finals, p)
      invariant forall j :: 0 <= j < i ==> PlayedOut(child.state, finals[j])
    {
      var leaf, path := RandomWalk(child, rng);
      assert Leads(child.state, path, leaf.state) && OpenAlong(child.state, path);
      WinsSnoc(finals, leaf.state, p);
      if Winner(leaf.state.grid) == Some(p) {
        count := count + 1;
      }
      finals := finals + [leaf.state];
    }
  }

  /** When `winner` gives every board of `finals` to `p`, all of them count. */
  lemma {:induction false} WinsAll(finals: seq<Board>, p: Cell)
    requires forall j :: 0 <= j < |finals| ==> Winner(finals[j].grid) == Some(p)
    ensures Wins(finals, p) == |finals|
    decreases |finals|
  {
    if finals != [] {
      WinsAll(finals[..|finals| - 1], p);
    }
  }

  /**
   * A column whose move wins on the spot for the side to move is credited with
   * every one of its walks: a walk from a decided board ends where it starts.
   */
  lemma WinningColumnWinsAll(b: Board, walks: nat, k: nat, count: nat, finals: seq<Board>)
    requires ColumnScored(b, walks, k, count, finals)
    requires Winner(Play(b, AvailableMoves(b)[k]).value.grid) == Some(b.player)
    ensures count == walks
  {
    var child := Play(b, AvailableMoves(b)[k]).value;
    WinnerSound(child.grid);
    forall j | 0 <= j < |finals|
      ensures Winner(finals[j].grid) == Some(b.player)
    {
      PlayedOutFromDecided(child, finals[j]);
    }
    WinsAll(finals, b.player);
  }

  /**
   * When some legal column wins on the spot for the side to move, the move kept
   * by the search is one whose every walk was won.
   */
  lemma SearchKeepsAWinAll(b: Board, walks: nat, counts: seq<nat>, finals: seq<seq<Board>>, k: nat)
    requires Scored(b, walks, counts, finals) && |counts| == |AvailableMoves(b)| && k < |counts|
    requires Winner(Play(b, AvailableMoves(b)[k]).value.grid) == Some(b.player)
    ensures FirstMax(AsReals(counts), -1.0).Some? && counts[FirstMax(AsReals(counts), -1.0).value] == walks
  {
    assert ColumnScored(b, walks, k, counts[k], finals[k]);
    WinningColumnWinsAll(b, walks, k, counts[k], finals[k]);
    var m := FirstMax(AsReals(counts), -1.0);
    assert AsReals(counts)[k] > -1.0;
    assert ColumnScored(b, walks, m.value, counts[m.value], finals[m.value]);
    assert AsReals(counts)[k] <= AsReals(counts)[m.value];
  }

  /** The win counts as the reals the shared argmax scan compares. */
  function AsReals(xs: seq<nat>): (ys: seq<real>)
    ensures |ys| == |xs| && forall i :: 0 <= i < |xs| ==> ys[i] == xs[i] as real
  {
    seq(|xs|, i requires 0 <= i < |xs| => xs[i] as real)
  }

  lemma AsRealsSnoc(xs: seq<nat>, x: nat)
    ensures AsReals(xs + [x]) == AsReals(xs) + [x as real]
  {
    assert forall i :: 0 <= i < |xs| + 1 ==> AsReals(xs + [x])[i] == (AsReals(xs) + [x as real])[i];
  }

  /**
   * The first `|counts|` legal columns of `b` are scored: column `k` got `walks`
   * walks, which ended on the boards `finals[k]`, and `counts[k]` of them were won
   * by the side to move on `b`.
   */
  ghost predicate Scored(b: Board, walks: nat, counts: seq<nat>, finals: seq<seq<Board>>)
  {
    |counts| == |finals| <= |AvailableMoves(b)| &&
    forall k :: 0 <= k < |counts| ==> ColumnScored(b, walks, k, counts[k], finals[k])
  }

  /** Legal column `k` of `b` got `walks` walks, ending on `finals`, `count` of them won by the side to move. */
  ghost predicate ColumnScored(b: Board, walks: nat, k: nat, count: nat, finals: seq<Board>)
  {
    k < |AvailableMoves(b)| && count <= walks && |finals| == walks && count == Wins(finals, b.player) &&
    WalkedFrom(b, AvailableMoves(b)[k], finals)
  }

  lemma ScoredSnoc(b: Board, walks: nat, counts: seq<nat>, finals: seq<seq<Board>>, count: nat, fs: seq<Board>)
    requires Scored(b, walks, counts, finals) && ColumnScored(b, walks, |counts|, count, fs)
    ensures Scored(b, walks, counts + [count], finals + [fs])
  {
    var counts', finals' := counts + [count], finals + [fs];
    forall k | 0 <= k < |counts'|
      ensures ColumnScored(b, walks, k, counts'[k], finals'[k])
    {
      if k < |counts| {
        ColumnScoredSame(b, walks, k, counts[k], finals[k], counts'[k], finals'[k]);
      } else {
        ColumnScoredSame(b, walks, k, count, fs, counts'[k], finals'[k]);
      }
    }
  }

  lemma ColumnScoredSame(b: Board, walks: nat, k: nat, count: nat, finals: seq<Board>, count': nat, finals': seq<Board>)
    requires ColumnScored(b, walks, k, count, finals) && count' == count && finals' == finals
    ensures ColumnScored(b, walks, k, count', finals')
  {
  }

  /**
   * One iteration of the loop over `tree.children`: scores `child`, the child for
   * the next unscored legal column, and keeps its column when its count beats the
   * best count so far.
   */
  method ScoreChild(board: Board, i: nat, child: Node, walks: nat, rng: Chooser,
                    ghost counts: seq<nat>, ghost finals: seq<seq<Board>>, best: Option<Column>, bestCount: int)
    returns (ghost counts': seq<nat>, ghost finals': seq<seq<Board>>, best': Option<Column>, bestCount': int)
    requires Scored(board, walks, counts, finals) && i == |counts| < |AvailableMoves(board)|
    requires Kept(AvailableMoves(board), AsReals(counts), -1.0, best, bestCount as real)
    requires Play(board, AvailableMoves(board)[i]) == Ok(child.state)
    modifies child`children, rng
    ensures Scored(board, walks, counts', finals') && |counts'| == |counts| + 1
    ensures Kept(AvailableMoves(board), AsReals(counts'), -1.0, best', bestCount' as real)
  {
    var moves := AvailableMoves(board);
    var count, fs := CountWins(child, board.player, walks, rng);
    assert WalkedFrom(board, moves[i], fs);
    assert ColumnScored(board, walks, i, count, fs);
    ScoredSnoc(board, walks, counts, finals, count, fs);
    KeptStep(moves, AsReals(counts), -1.0, best, bestCount as real, count as real);
    AsRealsSnoc(counts, count);
    counts', finals' := counts + [count], finals + [fs];
    best', bestCount' := best, bestCount;
    if count > bestCount {
      bestCount' := count;
      best' := Some(moves[i]);
    }
  }

  /**
   * `RandomRollout.move` on the board `board`, with the column of the `i`-th child
   * taken as the `i`-th legal column. Every legal column is scored by `CountWins`;
   * the kept column is the first with the highest count, since the scan starts
   * from -1 and replaces only on a strictly higher count, so a column is returned
   * exactly when there is one.
   */
  method Search(board: Board, walks: nat, rng: Chooser)
    returns (best: Option<Column>, ghost counts: seq<nat>, ghost finals: seq<seq<Board>>)
    requires board.player != Empty
    modifies rng
    ensures Scored(board, walks, counts, finals) && |counts| == |AvailableMoves(board)|
    ensures best == Pick(AvailableMoves(board), FirstMax(AsReals(counts), -1.0))
    ensures best.Some? <==> AvailableMoves(board) != []
  {
    var tree := new Node(null, board);
    tree.Expand();
    var children := tree.children.value;
    var moves := AvailableMoves(board);
    best := None;
    var bestCount: int := -1;
    counts, finals := [], [];
    assert |children| == |moves|;
    for i := 0 to |children|
      invariant forall k :: 0 <= k < |children| ==> fresh(children[k]) && Play(board, moves[k]) == Ok(children[k].state)
      invariant |counts| == i && Scored(board, walks, counts, finals)
      invariant Kept(moves, AsReals(counts), -1.0, best, bestCount as real)
    {
      counts, finals, best, bestCount := ScoreChild(board, i, children[i], walks, rng, counts, finals, best, bestCount);
    }
    FirstMaxAboveFloor(AsReals(counts), -1.0);
  }

  /** `RandomRollout.move(state)`: the search on the board `state` holds, which it leaves unchanged. */
  method Move(state: State, walks: nat, rng: Chooser)
    returns (best: Option<Column>, ghost counts: seq<nat>, ghost finals: seq<seq<Board>>)
    requires state.Valid()
    modifies rng
    ensures Scored(state.Value(), walks, counts, finals) && |counts| == |AvailableMoves(state.Value())|
    ensures best == Pick(AvailableMoves(state.Value()), FirstMax(AsReals(counts), -1.0))
    ensures best.Some? <==> AvailableMoves(state.Value()) != []
  {
    best, counts, finals := Search(state.Value(), walks, rng);
  }

  /**
   * `RandomRollout.move` as written, walking with `RandomWalk` so that only the
   * missing attribute shows: the first child's count is at least 0 and so beats
   * `best_count = -1`, and `best_move = child.move` reads an attribute that
   * `connect4.Node` does not have. The move fails exactly when a column is legal.
   */
  method MoveAsWritten(state: State, walks: nat, rng: Chooser) returns (r: Result<Option<Column>>)
    requires state.Valid()
    modifies rng
    ensures r.Ok? <==> AvailableMoves(state.Value()) == []
    ensures r.Ok? ==> r.value == None
    ensures r.Err? ==> r.error == MissingMove
  {
    var board := state.Value();
    var tree := new Node(null, board);
    tree.Expand();
    var children := tree.children.value;
    var bestCount: int := -1;
    if children == [] {
      r := Ok(None);
    } else {
      var count, _ := CountWins(children[0], board.player, walks, rng);
      assert count > bestCount;
      r := Err(MissingMove);
    }
  }
}
