/**
 * The MCTS agent (mcts.py): a search tree of nodes carrying a visit count `n` and
 * a win value `w`, grown by selection, expansion, random simulation and
 * backpropagation, one batch of `walks` iterations per child of the root.
 */
module Mcts {
  import opened Common
  import opened Connect4
  import opened Chance
  import opened Argmax

  /** `mcts.Node`: a position with the move that led to it and its search statistics. */
  class Node {
    const parent: Node?
    const state: Board
    const move: Option<Column>
    /** Distance from the root; it orders the parent links. */
    ghost const depth: nat
    var children: Option<seq<Node>>
    var w: real
    var n: nat

    /** `Node(parent, state, move)`: a private copy of `state`, no children yet, no visits. */
    constructor (parent: Node?, state: Board, move: Option<Column>)
      ensures this.parent == parent && this.state == state && this.move == move
      ensures depth == if parent == null then 0 else parent.depth + 1
      ensures children == None && n == 0 && w == 0.0
    {
      this.parent := parent;
      this.state := state;
      this.move := move;
      depth := if parent == null then 0 else parent.depth + 1;
      children := None;
      w := 0.0;
      n := 0;
    }

    /**
     * `Node.expand`: does nothing once children exist; otherwise creates one fresh,
     * unvisited child per legal column, ascending, tagged with its column.
     */
    method Expand(ghost nodes: set<Node>) returns (ghost nodes': set<Node>)
      requires Valid(nodes) && this in nodes
      modifies this`children
      ensures Valid(nodes') && nodes <= nodes' && fresh(nodes' - nodes)
      ensures children.Some? && ExpandedFrom(this, children.value)
      ensures old(children).Some? ==> children == old(children) && nodes' == nodes
      ensures old(children).None? ==>
                nodes' == nodes + set c | c in children.value &&
                forall c :: c in children.value ==> fresh(c) && c.children == None && c.n == 0 && c.w == 0.0
    {
      if children.Some? {
        return nodes;
      }
      assert NodeValid(this, nodes);
      var cs := NewChildren(this);
      children := Some(cs);
      nodes' := nodes + set c | c in cs;
      ValidAfterExpand(nodes, this, cs);
    }

    /**
     * `Node.fully_expanded`: expands first, then answers whether there are no
     * children or every child has been visited.
     */
    method FullyExpanded(ghost nodes: set<Node>) returns (full: bool, ghost nodes': set<Node>)
      requires Valid(nodes) && this in nodes
      modifies this`children
      ensures Valid(nodes') && nodes <= nodes' && fresh(nodes' - nodes)
      ensures children.Some? && ExpandedFrom(this, children.value)
      ensures old(children).Some? ==> children == old(children)
      ensures forall c :: c in nodes' - nodes ==> c.n == 0 && c.w == 0.0
      ensures full <==> children.value == [] || forall c :: c in children.value ==> c.n > 0
    {
      nodes' := Expand(nodes);
      if children.value == [] {
        return true, nodes';
      }
      full := forall c :: c in children.value ==> c.n > 0;
    }
  }

  /** One step of `expand`'s loop: copy the parent's board, play `col` on the copy, wrap it in a fresh node. */
  method NewChild(parent: Node, col: Column) returns (node: Node)
    requires parent.state.player != Empty && col in AvailableMoves(parent.state)
    ensures fresh(node) && node.parent == parent && node.depth == parent.depth + 1
    ensures node.move == Some(col) && Play(parent.state, col) == Ok(node.state)
    ensures node.children == None && node.n == 0 && node.w == 0.0
  {
    var copy := new State.FromBoard(parent.state);
    AvailableMovesArePlayable(parent.state, col);
    var _ := copy.Move(col);
    node := new Node(parent, copy.Value(), Some(col));
  }

  /** The loop of `expand`: one fresh, unvisited child of `x` per legal column, in ascending order. */
  method NewChildren(x: Node) returns (cs: seq<Node>)
    requires x.state.player != Empty
    ensures ExpandedFrom(x, cs)
    ensures forall k :: 0 <= k < |cs| ==>
              fresh(cs[k]) && cs[k].depth == x.depth + 1 && cs[k].children == None && cs[k].n == 0 && cs[k].w == 0.0
  {
    var moves := AvailableMoves(x.state);
    cs := [];
    for i := 0 to |moves|
      invariant |cs| == i
      invariant forall k :: 0 <= k < i ==>
                  cs[k].parent == x && cs[k].move == Some(moves[k]) && Play(x.state, moves[k]) == Ok(cs[k].state)
      invariant forall k :: 0 <= k < i ==>
                  fresh(cs[k]) && cs[k].depth == x.depth + 1 && cs[k].children == None && cs[k].n == 0 && cs[k].w == 0.0
    {
      var node := NewChild(x, moves[i]);
      cs := cs + [node];
    }
  }

  /** `cs` are the children `expand` creates for `x`: one per legal column, ascending, each the board after its column. */
  ghost predicate ExpandedFrom(x: Node, cs: seq<Node>)
  {
    var moves := AvailableMoves(x.state);
    |cs| == |moves| &&
    forall i :: 0 <= i < |cs| ==>
      cs[i].parent == x && cs[i].move == Some(moves[i]) && Play(x.state, moves[i]) == Ok(cs[i].state)
  }

  /** The search tree invariant over `nodes`, every node created so far. */
  ghost predicate Valid(nodes: set<Node>)
    reads nodes
  {
    forall x {:trigger NodeValid(x, nodes)} :: x in nodes ==> NodeValid(x, nodes)
  }

  /** One node of the tree: a proper side to move, its parent one level up, `0 <= w <= n`, its children expanded from it. */
  ghost predicate NodeValid(x: Node, nodes: set<Node>)
    reads x
  {
    x.state.player != Empty &&
    (x.parent != null ==> x.parent in nodes && x.depth == x.parent.depth + 1) &&
    0.0 <= x.w <= x.n as real &&
    (x.children.Some? ==>
       ExpandedFrom(x, x.children.value) && forall c :: c in x.children.value ==> c in nodes)
  }

  /** Giving the unexpanded node `x` the fresh children `cs` keeps the tree valid, over the tree grown by `cs`. */
  lemma ValidAfterExpand(nodes: set<Node>, x: Node, cs: seq<Node>)
    requires forall y :: y in nodes && y != x ==> NodeValid(y, nodes)
    requires x in nodes && x.state.player != Empty && 0.0 <= x.w <= x.n as real
    requires x.parent != null ==> x.parent in nodes && x.depth == x.parent.depth + 1
    requires x.children == Some(cs) && ExpandedFrom(x, cs)
    requires forall k :: 0 <= k < |cs| ==>
               cs[k].depth == x.depth + 1 && cs[k].children == None && cs[k].n == 0 && cs[k].w == 0.0
    ensures Valid(nodes + set c | c in cs)
  {
    var nodes' := nodes + set c | c in cs;
    forall y | y in nodes'
      ensures NodeValid(y, nodes')
    {
      if y !in nodes {
        var k :| 0 <= k < |cs| && cs[k] == y;
        var moves := AvailableMoves(x.state);
        assert y.state == Play(x.state, moves[k]).value;
      } else if y != x {
        assert NodeValid(y, nodes);
      }
    }
  }

  /** `x` and the nodes reached from it through `parent` links. */
  ghost function Ancestors(x: Node): set<Node>
    decreases x.depth
  {
    if x.parent == null || x.parent.depth >= x.depth then {x} else {x} + Ancestors(x.parent)
  }

  /** The parent chain meets each depth at most once, so it never revisits a node. */
  lemma {:induction false} AncestorsByDepth(x: Node, a: Node, b: Node)
    ensures a in Ancestors(x) && b in Ancestors(x) && a.depth == b.depth ==> a == b
    decreases x.depth
  {
    AncestorsBelow(x);
    if x.parent != null && x.parent.depth < x.depth {
      AncestorsByDepth(x.parent, a, b);
    }
  }

  lemma {:induction false} AncestorsBelow(x: Node)
    ensures forall a :: a in Ancestors(x) ==> a.depth <= x.depth
    ensures forall a :: a in Ancestors(x) && a != x ==> x.parent != null && a in Ancestors(x.parent) && a.depth < x.depth
    decreases x.depth
  {
    if x.parent != null && x.parent.depth < x.depth {
      AncestorsBelow(x.parent);
    }
  }

  /** Above a node of the tree, its ancestors are the node itself and its parent's ancestors, which lie strictly higher. */
  lemma AncestorsStep(nodes: set<Node>, x: Node)
    requires Valid(nodes) && x in nodes && x.parent != null
    ensures x.parent in nodes && x.parent.depth < x.depth
    ensures Ancestors(x) == {x} + Ancestors(x.parent) && x !in Ancestors(x.parent)
  {
    assert NodeValid(x, nodes);
    AncestorsBelow(x.parent);
  }

  lemma {:induction false} AncestorsInTree(nodes: set<Node>, x: Node)
    requires Valid(nodes) && x in nodes
    ensures Ancestors(x) <= nodes
    decreases x.depth
  {
    assert NodeValid(x, nodes);
    if x.parent != null {
      AncestorsInTree(nodes, x.parent);
    }
  }

  /**
   * The value `backpropagate` adds to `w` at a node whose side to move is `p`:
   * one half for a tie, one when the result is not a win for `p`, else nothing.
   */
  function Reward(o: Outcome, p: Cell): (v: real)
    ensures 0.0 <= v <= 1.0
    ensures o == Tie ==> v == 0.5
    ensures o.Win? && o.colour != Empty && p != Empty ==>
              (v == 1.0 <==> o.colour == Flip(p)) && (v == 0.0 <==> o.colour == p)
  {
    if o == Tie then 0.5 else if o != Win(p) then 1.0 else 0.0
  }

  /**
   * `MCTS.backpropagate`: adds one visit, and the reward of `result` seen from
   * each node's side to move, to `node` and to every ancestor up to the root.
   */
  method Backpropagate(node: Node, result: Board, ghost nodes: set<Node>)
    requires Valid(nodes) && node in nodes
    modifies nodes`n, nodes`w
    ensures Valid(nodes)
    ensures forall y :: y in nodes ==> y.n == old(y.n) + if y in Ancestors(node) then 1 else 0
    ensures forall y :: y in nodes ==>
              y.w == old(y.w) + if y in Ancestors(node) then Reward(Decide(result), y.state.player) else 0.0
  {
    var cur := node;
    ghost var done: set<Node> := {};
    AncestorsInTree(nodes, node);
    while true
      invariant cur in nodes && Valid(nodes) && Ancestors(cur) <= nodes
      invariant done !! Ancestors(cur) && done + Ancestors(cur) == Ancestors(node)
      invariant forall y :: y in nodes ==> y.n == old(y.n) + if y in done then 1 else 0
      invariant forall y :: y in nodes ==>
                  y.w == old(y.w) + if y in done then Reward(Decide(result), y.state.player) else 0.0
      decreases cur.depth
    {
      var winner := Decide(result);
      var value := Reward(winner, cur.state.player);
      Visit(cur, value, nodes);
      done := done + {cur};
      if cur.parent == null {
        break;
      }
      AncestorsStep(nodes, cur);
      cur := cur.parent;
    }
  }

  /** One node's update in `backpropagate`: one more visit and `value` more reward, within the tree invariant. */
  method Visit(x: Node, value: real, ghost nodes: set<Node>)
    requires Valid(nodes) && x in nodes && 0.0 <= value <= 1.0
    modifies x`n, x`w
    ensures Valid(nodes) && x.n == old(x.n) + 1 && x.w == old(x.w) + value
  {
    assert NodeValid(x, nodes);
    x.n := x.n + 1;
    x.w := x.w + value;
    forall y | y in nodes
      ensures NodeValid(y, nodes)
    {
      if y != x {
        assert old(NodeValid(y, nodes));
      }
    }
  }

  /** The children not yet visited. */
  function Unvisited(cs: seq<Node>): (us: seq<Node>)
    reads cs
    ensures |us| <= |cs|
    ensures forall i :: 0 <= i < |us| ==> us[i] in cs && us[i].n == 0
    ensures forall i :: 0 <= i < |cs| && cs[i].n == 0 ==> cs[i] in us
  {
    if cs == [] then []
    else (if cs[0].n == 0 then [cs[0]] else []) + Unvisited(cs[1..])
  }

  /** Stepping from `x` to its `k`-th child extends the path to `x` by that child's column and adds one piece. */
  lemma ChildStep(nodes: set<Node>, x: Node, k: nat, start: Node, path: seq<Column>) returns (path': seq<Column>)
    requires Valid(nodes) && x in nodes && x.children.Some? && k < |x.children.value|
    requires start in Ancestors(x) && Replay(start.state, path) == Ok(x.state)
    ensures x.children.value[k] in nodes && start in Ancestors(x.children.value[k])
    ensures k < |AvailableMoves(x.state)| && path' == path + [AvailableMoves(x.state)[k]]
    ensures Replay(start.state, path') == Ok(x.children.value[k].state)
    ensures Pieces(x.children.value[k].state.grid) == Pieces(x.state.grid) + 1
  {
    var child := x.children.value[k];
    assert NodeValid(x, nodes);
    var col := AvailableMoves(x.state)[k];
    assert NodeValid(child, nodes);
    PlayAddsOnePiece(x.state, col);
    path' := path + [col];
    assert path'[..|path|] == path;
  }

  /** `random.choice` over the children not yet visited: the position of one of them. */
  method PickUnvisited(cs: seq<Node>, rng: Chooser) returns (k: nat)
    requires exists i :: 0 <= i < |cs| && cs[i].n == 0
    modifies rng
    ensures k < |cs| && cs[k].n == 0
  {
    var us := Unvisited(cs);
    var i := rng.Choose(|us|);
    k :| 0 <= k < |cs| && cs[k] == us[i];
  }

  /**
   * The `while` loop of `MCTS.selection`: from `start`, follows the UCT choice (an
   * oracle here) while the node, once expanded, has children all visited. When
   * the UCT scan keeps no child the source goes on with `None` and crashes; that
   * is `Err(NoneChild)`.
   */
  method Descend(start: Node, rng: Chooser, ghost nodes: set<Node>)
    returns (r: Result<Node>, ghost nodes': set<Node>, ghost path: seq<Column>)
    requires Valid(nodes) && start in nodes
    modifies nodes`children, rng
    ensures Valid(nodes') && nodes <= nodes' && fresh(nodes' - nodes)
    ensures r.Err? ==> r.error == NoneChild
    ensures r.Ok? ==> r.value in nodes' && start in Ancestors(r.value)
    ensures r.Ok? ==> Replay(start.state, path) == Ok(r.value.state)
    ensures r.Ok? ==> r.value.children.Some? &&
                      (r.value.children.value == [] ||
                       exists i :: 0 <= i < |r.value.children.value| && r.value.children.value[i].n == 0)
    ensures forall y :: y in nodes && old(y.children).Some? ==> y.children == old(y.children)
  {
    var node := start;
    nodes' := nodes;
    path := [];
    while true
      invariant Valid(nodes') && nodes <= nodes' && fresh(nodes' - nodes) && node in nodes'
      invariant forall y :: y in nodes && old(y.children).Some? ==> y.children == old(y.children)
      invariant start in Ancestors(node)
      invariant Replay(start.state, path) == Ok(node.state)
      decreases Columns * Rows - Pieces(node.state.grid)
    {
      var full;
      full, nodes' := node.FullyExpanded(nodes');
      var cs := node.children.value;
      if !full || cs == [] {
        return Ok(node), nodes', path;
      }
      var pick := rng.PickBest(|cs|);
      if pick.None? {
        return Err(NoneChild), nodes', path;
      }
      path := ChildStep(nodes', node, pick.value, start, path);
      node := cs[pick.value];
    }
  }

  /**
   * `MCTS.selection`: descends, then, at a node with children not all visited,
   * picks one of the unvisited children at random; a leaf is returned as it is.
   */
  method Selection(start: Node, rng: Chooser, ghost nodes: set<Node>)
    returns (r: Result<Node>, ghost nodes': set<Node>, ghost path: seq<Column>)
    requires Valid(nodes) && start in nodes
    modifies nodes`children, rng
    ensures Valid(nodes') && nodes <= nodes' && fresh(nodes' - nodes)
    ensures r.Err? ==> r.error == NoneChild
    ensures r.Ok? ==> r.value in nodes' && start in Ancestors(r.value)
    ensures r.Ok? ==> Replay(start.state, path) == Ok(r.value.state)
    ensures r.Ok? ==> r.value.children == Some([]) || r.value.n == 0
    ensures forall y :: y in nodes && old(y.children).Some? ==> y.children == old(y.children)
  {
    r, nodes', path := Descend(start, rng, nodes);
    if r.Err? {
      return;
    }
    var node := r.value;
    var cs := node.children.value;
    if cs != [] {
      var k := PickUnvisited(cs, rng);
      path := ChildStep(nodes', node, k, start, path);
      r := Ok(cs[k]);
    }
  }

  /** One step of the playout: `random.choice` over the legal columns, played on `state`. */
  method RandomMove(state: State, rng: Chooser) returns (ghost col: Column)
    requires state.Valid() && AvailableMoves(state.Value()) != []
    modifies state.data, state`player, rng
    ensures state.Valid() && col in AvailableMoves(old(state.Value()))
    ensures Play(old(state.Value()), col) == Ok(state.Value())
  {
    var moves := AvailableMoves(state.Value());
    var i := rng.Choose(|moves|);
    AvailableMovesArePlayable(state.Value(), moves[i]);
    col := moves[i];
    var _ := state.Move(moves[i]);
  }

  /**
   * `MCTS.simulate`: plays random legal columns on a copy of the node's board
   * until the game is first decided, so neither the node nor its board changes. The
   * loop stops on a Tie as well as on a win, the behaviour the import of `TIE`
   * presumes (see the drawn-board finding for the loop as written).
   */
  method Simulate(node: Node, rng: Chooser) returns (result: Board, ghost path: seq<Column>)
    requires node.state.player != Empty
    modifies rng
    ensures Decide(result) != Undecided
    ensures Replay(node.state, path) == Ok(result) && OpenAlong(node.state, path)
  {
    var state := new State.FromBoard(node.state);
    path := [];
    while Decide(state.Value()) == Undecided
      invariant state.Valid() && fresh(state) && fresh(state.data)
      invariant Replay(node.state, path) == Ok(state.Value()) && OpenAlong(node.state, path)
      decreases Columns * Rows - Pieces(state.Value().grid)
    {
      ghost var before := state.Value();
      ghost var col := RandomMove(state, rng);
      OpenAlongSnoc(node.state, path, col);
      path := ReplayStep(node.state, path, before, col);
    }
    result := state.Value();
  }

  /**
   * One round of the inner loop of `MCTS.move`: select from `start`, expand the
   * selected node `leaf`, play out from it to `final` and backpropagate.
   */
  method Walk(start: Node, rng: Chooser, ghost nodes: set<Node>)
    returns (r: Result<()>, ghost nodes': set<Node>, ghost leaf: Node, ghost final: Board,
             ghost path: seq<Column>, ghost played: seq<Column>)
    requires Valid(nodes) && start in nodes
    modifies nodes`children, nodes`n, nodes`w, rng
    ensures Valid(nodes') && nodes <= nodes' && fresh(nodes' - nodes)
    ensures forall y :: y in nodes && old(y.children).Some? ==> y.children == old(y.children)
    ensures r.Err? ==> r.error == NoneChild && forall y :: y in nodes ==> y.n == old(y.n) && y.w == old(y.w)
    ensures r.Ok? ==> start in Ancestors(leaf) && Decide(final) != Undecided
    ensures r.Ok? ==> Replay(start.state, path) == Ok(leaf.state)
    ensures r.Ok? ==> Replay(leaf.state, played) == Ok(final) && OpenAlong(leaf.state, played)
    ensures r.Ok? ==> forall y :: y in nodes ==> y.n == old(y.n) + if y in Ancestors(leaf) then 1 else 0
    ensures r.Ok? ==> forall y :: y in nodes ==>
              y.w == old(y.w) + if y in Ancestors(leaf) then Reward(Decide(final), y.state.player) else 0.0
  {
    var selected;
    selected, nodes', path := Selection(start, rng, nodes);
    leaf, final, played := start, start.state, [];
    if selected.Err? {
      return Err(selected.error), nodes', leaf, final, path, played;
    }
    var node := selected.value;
    var result;
    nodes', result, played := Playout(node, rng, nodes');
    r, leaf, final := Ok(()), node, result;
  }

  /** Expansion, simulation and backpropagation from the selected node `node`. */
  method Playout(node: Node, rng: Chooser, ghost nodes: set<Node>)
    returns (ghost nodes': set<Node>, result: Board, ghost played: seq<Column>)
    requires Valid(nodes) && node in nodes
    modifies nodes`children, nodes`n, nodes`w, rng
    ensures Valid(nodes') && nodes <= nodes' && fresh(nodes' - nodes) && Decide(result) != Undecided
    ensures Replay(node.state, played) == Ok(result) && OpenAlong(node.state, played)
    ensures forall y :: y in nodes && old(y.children).Some? ==> y.children == old(y.children)
    ensures forall y :: y in nodes ==> y.n == old(y.n) + if y in Ancestors(node) then 1 else 0
    ensures forall y :: y in nodes ==>
              y.w == old(y.w) + if y in Ancestors(node) then Reward(Decide(result), y.state.player) else 0.0
  {
    nodes' := node.Expand(nodes);
    assert NodeValid(node, nodes');
    result, played := Simulate(node, rng);
    Backpropagate(node, result, nodes');
  }

  /**
   * The inner loop of `MCTS.move`: `walks` rounds from the root child `child`. Each
   * round credits `child`, and none of `others`, nodes at the same depth as `child`,
   * with the reward of its result: the `finals`, each played out below `child`.
   */
  method Walks(child: Node, walks: nat, rng: Chooser, ghost others: set<Node>, ghost nodes: set<Node>)
    returns (r: Result<real>, ghost nodes': set<Node>, ghost finals: seq<Board>)
    requires Valid(nodes) && child in nodes
    requires forall o :: o in others ==> o in nodes && o != child && o.depth == child.depth
    modifies nodes`children, nodes`n, nodes`w, rng
    ensures Valid(nodes') && nodes <= nodes' && fresh(nodes' - nodes)
    ensures forall y :: y in nodes && old(y.children).Some? ==> y.children == old(y.children)
    ensures r.Err? ==> r.error == NoneChild && walks > 0
    ensures r.Ok? ==> child.n == old(child.n) + walks && r.value == child.w && 0.0 <= r.value <= child.n as real
    ensures r.Ok? ==> |finals| == walks && child.w == old(child.w) + Rewards(finals, child.state.player)
    ensures PlayedBelow(child.state, finals)
    ensures forall o :: o in others ==> o.n == old(o.n) && o.w == old(o.w)
  {
    nodes' := nodes;
    finals := [];
    for walk := 0 to walks
      invariant Valid(nodes') && nodes <= nodes' && fresh(nodes' - nodes)
      invariant forall y :: y in nodes && old(y.children).Some? ==> y.children == old(y.children)
      invariant child.n == old(child.n) + walk
      invariant |finals| == walk && child.w == old(child.w) + Rewards(finals, child.state.player)
      invariant PlayedBelow(child.state, finals)
      invariant forall o :: o in others ==> o.n == old(o.n) && o.w == old(o.w)
    {
      var round;
      ghost var leaf, final, path, played;
      round, nodes', leaf, final, path, played := Walk(child, rng, nodes');
      if round.Err? {
        return Err(round.error), nodes', finals;
      }
      forall o | o in others
        ensures o !in Ancestors(leaf)
      {
        AncestorsByDepth(leaf, child, o);
      }
      ReplayAppend(child.state, path, played);
      assert Leads(child.state, path + played, final);
      PlayedBelowSnoc(child.state, finals, path + played, final);
      RewardsSnoc(finals, final, child.state.player);
      finals := finals + [final];
    }
    assert NodeValid(child, nodes');
    r := Ok(child.w);
  }

  /** Every board of `finals` is decided and reached from `b` by legal moves; the last one is unfolded first. */
  ghost predicate PlayedBelow(b: Board, finals: seq<Board>)
    decreases |finals|
  {
    finals != [] ==>
      PlayedBelow(b, finals[..|finals| - 1]) &&
      Reachable(b, finals[|finals| - 1]) && Decide(finals[|finals| - 1]) != Undecided
  }

  lemma PlayedBelowSnoc(b: Board, finals: seq<Board>, path: seq<Column>, final: Board)
    requires PlayedBelow(b, finals) && Leads(b, path, final) && Decide(final) != Undecided
    ensures PlayedBelow(b, finals + [final])
  {
    assert (finals + [final])[..|finals|] == finals;
  }

  /** The boards of `finals` one at a time: each is decided and reached from `b`. */
  lemma {:induction false} PlayedBelowAll(b: Board, finals: seq<Board>)
    requires PlayedBelow(b, finals)
    ensures forall j :: 0 <= j < |finals| ==> Reachable(b, finals[j]) && Decide(finals[j]) != Undecided
    decreases |finals|
  {
    if finals != [] {
      var prefix := finals[..|finals| - 1];
      PlayedBelowAll(b, prefix);
      forall j | 0 <= j < |finals|
        ensures Reachable(b, finals[j]) && Decide(finals[j]) != Undecided
      {
        if j < |prefix| {
          assert prefix[j] == finals[j];
        }
      }
    }
  }

  /** `w` is the reward the `walks` results `finals`, played out below `b`, bring a node holding `b`. */
  ghost predicate WalkedOut(b: Board, walks: nat, w: real, finals: seq<Board>)
  {
    |finals| == walks && w == Rewards(finals, b.player) && PlayedBelow(b, finals)
  }

  /** The total reward the results `finals` bring a node whose side to move is `p`: at most one per result. */
  function Rewards(finals: seq<Board>, p: Cell): (v: real)
    ensures 0.0 <= v <= |finals| as real
  {
    if finals == [] then 0.0 else Rewards(finals[..|finals| - 1], p) + Reward(Decide(finals[|finals| - 1]), p)
  }

  lemma RewardsSnoc(finals: seq<Board>, b: Board, p: Cell)
    ensures Rewards(finals + [b], p) == Rewards(finals, p) + Reward(Decide(b), p)
  {
    assert (finals + [b])[..|finals|] == finals;
  }

  /** Scores after `walks` walks each: between 0 and `walks`, and all 0 when there were no walks. */
  ghost predicate InRange(ws: seq<real>, walks: nat)
  {
    forall k :: 0 <= k < |ws| ==> 0.0 <= ws[k] <= walks as real && (walks == 0 ==> ws[k] == 0.0)
  }

  lemma InRangeSnoc(ws: seq<real>, walks: nat, x: real)
    requires InRange(ws, walks) && 0.0 <= x <= walks as real && (walks == 0 ==> x == 0.0)
    ensures InRange(ws + [x], walks)
  {
  }

  /**
   * The tree `nodes` is valid and holds the root's `children`, of which those from
   * `i` on are not visited yet.
   */
  ghost predicate Pending(nodes: set<Node>, children: seq<Node>, i: nat)
    reads nodes
  {
    Valid(nodes) &&
    (forall k :: 0 <= k < |children| ==> children[k] in nodes && children[k].depth == 1) &&
    forall k :: i <= k < |children| ==> children[k].n == 0 && children[k].w == 0.0
  }

  /**
   * The walks of one iteration of `MCTS.move`'s loop: `walks` rounds below the
   * unvisited child `i`, whose visit count is then `walks` and whose score `w` is
   * the sum of the rewards of the results `fs` of its walks; the children after it
   * are still unvisited.
   */
  method ScoreChild(root: Node, children: seq<Node>, i: nat, walks: nat, rng: Chooser, ghost nodes: set<Node>)
    returns (r: Result<real>, ghost nodes': set<Node>, ghost fs: seq<Board>)
    requires Pending(nodes, children, i) && ExpandedFrom(root, children) && i < |children|
    modifies nodes`children, nodes`n, nodes`w, rng
    ensures Pending(nodes', children, i + 1) && nodes <= nodes' && fresh(nodes' - nodes)
    ensures r.Err? ==> r.error == NoneChild && walks > 0
    ensures r.Ok? ==> r.value == children[i].w && 0.0 <= r.value <= walks as real
    ensures r.Ok? && walks == 0 ==> r.value == 0.0
    ensures r.Ok? ==> children[i].n == walks && WalkedOut(children[i].state, walks, r.value, fs)
  {
    var child := children[i];
    assert NodeValid(child, nodes);
    ghost var others := set k | 0 <= k < |children| && k != i :: children[k];
    forall o | o in others
      ensures o != child
    {
      var k :| 0 <= k < |children| && k != i && o == children[k];
      if k < i {
        ChildrenDistinct(root, children, k, i);
      } else {
        ChildrenDistinct(root, children, i, k);
      }
    }
    r, nodes', fs := Walks(child, walks, rng, others, nodes);
  }

  /** The children `expand` gives a node are distinct objects, one per legal column. */
  lemma ChildrenDistinct(x: Node, cs: seq<Node>, i: nat, k: nat)
    requires ExpandedFrom(x, cs) && i < k < |cs|
    ensures cs[i] != cs[k]
  {
    assert cs[i].move != cs[k].move;
  }

  /**
   * `MCTS.move`: searches from a copy of the caller's board, which stays as it
   * was, and answers the chosen column; `ws` are the win values of the root's
   * children, one per legal column, each the rewards of its `finals`.
   */
  method Move(state: State, walks: nat, rng: Chooser)
    returns (best: Result<Option<Column>>, ghost ws: seq<real>, ghost finals: seq<seq<Board>>)
    requires state.Valid()
    modifies rng
    ensures best.Err? ==> best.error == NoneChild
    ensures best.Ok? ==> Searched(state.Value(), walks, ws, finals)
    ensures best.Ok? ==> forall i :: 0 <= i < |ws| ==> 0.0 <= ws[i] <= walks as real
    ensures best.Ok? ==> best.value == Pick(AvailableMoves(state.Value()), FirstMax(ws, 0.0))
    ensures walks == 0 ==> best == Ok(None)
  {
    best, ws, finals := Search(state.Value(), walks, rng);
  }

  /**
   * After the search from `board`: one win value per legal column, in order;
   * `ws[i]` is the reward of the `walks` results `finals[i]`, decided boards
   * reached from the board after column `i`, seen from that board's side to move.
   */
  ghost predicate Searched(board: Board, walks: nat, ws: seq<real>, finals: seq<seq<Board>>)
  {
    var moves := AvailableMoves(board);
    |ws| == |moves| && |finals| == |moves| &&
    forall i :: 0 <= i < |moves| ==> Play(board, moves[i]).Ok? && WalkedOut(Play(board, moves[i]).value, walks, ws[i], finals[i])
  }

  /** The start of `MCTS.move`: a fresh root holding `board`, expanded to unvisited children. */
  method Root(board: Board) returns (root: Node, children: seq<Node>, ghost nodes: set<Node>)
    requires board.player != Empty
    ensures fresh(nodes) && Valid(nodes) && root.state == board && ExpandedFrom(root, children)
    ensures forall k :: 0 <= k < |children| ==>
              children[k] in nodes && children[k].depth == 1 && children[k].n == 0 && children[k].w == 0.0
  {
    root := new Node(null, board, None);
    nodes := {root};
    assert NodeValid(root, nodes);
    nodes := root.Expand(nodes);
    children := root.children.value;
    assert NodeValid(root, nodes);
    forall k | 0 <= k < |children|
      ensures children[k] in nodes && children[k].depth == 1
    {
      var c := children[k];
      assert c in children && c.parent == root;
      assert NodeValid(c, nodes);
    }
  }

  /** The first `n` of the root's `children` are scored as `Searched` says; the last of them is unfolded first. */
  ghost predicate ScoredUpTo(children: seq<Node>, walks: nat, ws: seq<real>, finals: seq<seq<Board>>, n: nat)
    requires n <= |children| && n <= |ws| && n <= |finals|
  {
    n > 0 ==> ScoredUpTo(children, walks, ws, finals, n - 1) && WalkedOut(children[n - 1].state, walks, ws[n - 1], finals[n - 1])
  }

  /** Scoring one more child leaves the earlier children scored. */
  lemma {:induction false} ScoredUpToSnoc(children: seq<Node>, walks: nat, ws: seq<real>, finals: seq<seq<Board>>, w: real, fs: seq<Board>, n: nat)
    requires n <= |ws| < |children| && |finals| == |ws|
    requires ScoredUpTo(children, walks, ws, finals, n)
    requires WalkedOut(children[|ws|].state, walks, w, fs)
    ensures ScoredUpTo(children, walks, ws + [w], finals + [fs], n)
    ensures n == |ws| ==> ScoredUpTo(children, walks, ws + [w], finals + [fs], n + 1)
  {
    if n > 0 {
      ScoredUpToSnoc(children, walks, ws, finals, w, fs, n - 1);
      assert (ws + [w])[n - 1] == ws[n - 1] && (finals + [fs])[n - 1] == finals[n - 1];
    }
  }

  /** Once every child of the root is scored, the search from the root's board is as `Searched` says. */
  lemma ScoredAll(root: Node, children: seq<Node>, walks: nat, ws: seq<real>, finals: seq<seq<Board>>)
    requires ExpandedFrom(root, children) && |ws| == |children| == |finals|
    requires ScoredUpTo(children, walks, ws, finals, |ws|)
    ensures Searched(root.state, walks, ws, finals)
  {
    ScoredBelow(children, walks, ws, finals, |ws|);
  }

  lemma {:induction false} ScoredBelow(children: seq<Node>, walks: nat, ws: seq<real>, finals: seq<seq<Board>>, n: nat)
    requires n <= |children| && n <= |ws| && n <= |finals|
    requires ScoredUpTo(children, walks, ws, finals, n)
    ensures forall k :: 0 <= k < n ==> WalkedOut(children[k].state, walks, ws[k], finals[k])
  {
    if n > 0 {
      ScoredBelow(children, walks, ws, finals, n - 1);
      forall k | 0 <= k < n
        ensures WalkedOut(children[k].state, walks, ws[k], finals[k])
      {
        if k == n - 1 {
          assert ScoredUpTo(children, walks, ws, finals, n);
        }
      }
    }
  }

  /**
   * What `MCTS.move`'s loop keeps after scoring the first `|ws|` children of `root`:
   * their scores `ws` and walk results `finals`, and the best column and score so far.
   */
  ghost predicate SearchedUpTo(root: Node, children: seq<Node>, walks: nat, ws: seq<real>, finals: seq<seq<Board>>,
                               bestMove: Option<Column>, bestW: real)
  {
    ExpandedFrom(root, children) && |ws| == |finals| <= |children| && InRange(ws, walks) &&
    ScoredUpTo(children, walks, ws, finals, |ws|) && Kept(AvailableMoves(root.state), ws, 0.0, bestMove, bestW)
  }

  /** Scoring the next child and comparing its score `w` with the best keeps `SearchedUpTo`. */
  lemma SearchedStep(root: Node, children: seq<Node>, walks: nat, ws: seq<real>, finals: seq<seq<Board>>,
                     bestMove: Option<Column>, bestW: real, w: real, fs: seq<Board>)
    requires SearchedUpTo(root, children, walks, ws, finals, bestMove, bestW) && |ws| < |children|
    requires 0.0 <= w <= walks as real && (walks == 0 ==> w == 0.0)
    requires WalkedOut(children[|ws|].state, walks, w, fs)
    ensures SearchedUpTo(root, children, walks, ws + [w], finals + [fs],
                         if w > bestW then children[|ws|].move else bestMove, if w > bestW then w else bestW)
  {
    KeptStep(AvailableMoves(root.state), ws, 0.0, bestMove, bestW, w);
    InRangeSnoc(ws, walks, w);
    ScoredUpToSnoc(children, walks, ws, finals, w, fs, |ws|);
  }

  /** Once every child is scored, the kept column is the first best-scoring one, and none without walks. */
  lemma SearchedDone(root: Node, children: seq<Node>, walks: nat, ws: seq<real>, finals: seq<seq<Board>>,
                     bestMove: Option<Column>, bestW: real)
    requires SearchedUpTo(root, children, walks, ws, finals, bestMove, bestW) && |ws| == |children|
    ensures Searched(root.state, walks, ws, finals)
    ensures forall i :: 0 <= i < |ws| ==> 0.0 <= ws[i] <= walks as real
    ensures bestMove == Pick(AvailableMoves(root.state), FirstMax(ws, 0.0))
    ensures walks == 0 ==> bestMove == None
  {
    ScoredAll(root, children, walks, ws, finals);
  }

  /**
   * One iteration of `MCTS.move`'s loop: scores child `|ws|` of the root and keeps
   * its column when its score beats the best so far.
   */
  method ScoreStep(root: Node, children: seq<Node>, i: nat, walks: nat, rng: Chooser, ghost nodes: set<Node>,
                   bestMove: Option<Column>, bestW: real, ghost ws: seq<real>, ghost finals: seq<seq<Board>>)
    returns (r: Result<()>, ghost nodes': set<Node>, bestMove': Option<Column>, bestW': real,
             ghost ws': seq<real>, ghost finals': seq<seq<Board>>)
    requires i == |ws| < |children| && Pending(nodes, children, i)
    requires SearchedUpTo(root, children, walks, ws, finals, bestMove, bestW)
    modifies nodes`children, nodes`n, nodes`w, rng
    ensures nodes <= nodes' && fresh(nodes' - nodes)
    ensures r.Err? ==> r.error == NoneChild && walks > 0
    ensures r.Ok? ==> |ws'| == i + 1 && Pending(nodes', children, i + 1)
    ensures r.Ok? ==> SearchedUpTo(root, children, walks, ws', finals', bestMove', bestW')
  {
    var w;
    ghost var fs;
    w, nodes', fs := ScoreChild(root, children, i, walks, rng, nodes);
    if w.Err? {
      return Err(w.error), nodes', bestMove, bestW, ws, finals;
    }
    SearchedStep(root, children, walks, ws, finals, bestMove, bestW, w.value, fs);
    r, ws', finals' := Ok(()), ws + [w.value], finals + [fs];
    if w.value > bestW {
      bestMove', bestW' := children[i].move, w.value;
    } else {
      bestMove', bestW' := bestMove, bestW;
    }
  }

  /**
   * The loop of `MCTS.move` over the fresh root's `children`: scores each in turn
   * and keeps the first column whose score beats the best so far.
   */
  method ScoreChildren(root: Node, children: seq<Node>, walks: nat, rng: Chooser, ghost nodes: set<Node>)
    returns (best: Result<Option<Column>>, ghost ws: seq<real>, ghost finals: seq<seq<Board>>, bestW: real)
    requires Pending(nodes, children, 0) && ExpandedFrom(root, children)
    modifies nodes`children, nodes`n, nodes`w, rng
    ensures best.Err? ==> best.error == NoneChild && walks > 0
    ensures best.Ok? ==> |ws| == |children| && SearchedUpTo(root, children, walks, ws, finals, best.value, bestW)
  {
    var bestMove: Option<Column> := None;
    bestW := 0.0;
    ws, finals := [], [];
    ghost var nodes' := nodes;
    for i := 0 to |children|
      invariant nodes <= nodes' && fresh(nodes' - nodes) && |ws| == i && Pending(nodes', children, i)
      invariant SearchedUpTo(root, children, walks, ws, finals, bestMove, bestW)
    {
      var r;
      r, nodes', bestMove, bestW, ws, finals := ScoreStep(root, children, i, walks, rng, nodes', bestMove, bestW, ws, finals);
      if r.Err? {
        return Err(r.error), ws, finals, bestW;
      }
    }
    best := Ok(bestMove);
  }

  /**
   * The body of `MCTS.move` on the root's board: for each child of a fresh root,
   * in column order, runs `walks` rounds of selection, expansion, simulation and
   * backpropagation, then keeps the child's column when its `w` beats the best so
   * far, starting from 0.
   */
  method Search(board: Board, walks: nat, rng: Chooser)
    returns (best: Result<Option<Column>>, ghost ws: seq<real>, ghost finals: seq<seq<Board>>)
    requires board.player != Empty
    modifies rng
    ensures best.Err? ==> best.error == NoneChild
    ensures best.Ok? ==> Searched(board, walks, ws, finals)
    ensures best.Ok? ==> forall i :: 0 <= i < |ws| ==> 0.0 <= ws[i] <= walks as real
    ensures best.Ok? ==> best.value == Pick(AvailableMoves(board), FirstMax(ws, 0.0))
    ensures walks == 0 ==> best == Ok(None)
  {
    var root, children, nodes := Root(board);
    var r, bestW;
    r, ws, finals, bestW := ScoreChildren(root, children, walks, rng, nodes);
    if r.Err? {
      return Err(r.error), ws, finals;
    }
    SearchedDone(root, children, walks, ws, finals, r.value, bestW);
    best := Ok(r.value);
  }
}
