/**
 * Connect Four board rules (connect4.py): a 7 x 6 grid indexed by (column, row),
 * row 0 at the bottom; dropping a piece, the legal columns, the four-in-a-row
 * scan, the mutable `State` object, the game-tree `Node` and the default player.
 */
module Connect4 {
  import opened Common

  const Columns: nat := 7
  const Rows: nat := 6

  datatype Cell = Empty | Red | Yellow

  type Column = c: nat | c < Columns
  type Row = r: nat | r < Rows

  /** `State.data`: one sequence of `Rows` cells per column. */
  type Grid = g: seq<seq<Cell>> | |g| == Columns && forall c :: 0 <= c < |g| ==> |g[c]| == Rows
    witness seq(Columns, c => seq(Rows, r => Empty))

  /** The value of a `State`: its cells and the side to move. */
  datatype Board = Board(grid: Grid, player: Cell)

  /** A fresh `State()`: every cell Empty, Red to move, so every column is legal. */
  function Initial(): (b: Board)
    ensures b.player == Red && forall c: Column, r: Row :: b.grid[c][r] == Empty
    ensures forall c: Column :: c in AvailableMoves(b)
  {
    var b := Board(seq(Columns, c => seq(Rows, r => Empty)), Red);
    assert forall c: Column :: !ColumnFull(b.grid, c) by {
      forall c: Column
        ensures !ColumnFull(b.grid, c)
      {
        assert b.grid[c][0] == Empty;
      }
    }
    b
  }

  /** The turn flip of `State.move`: Yellow after Red, Red after anything else. */
  function Flip(p: Cell): (f: Cell)
    ensures f != Empty && f != p
  {
    if p == Red then Yellow else Red
  }

  // ---------------------------------------------------------------------------
  // Dropping a piece

  ghost predicate ColumnFull(g: Grid, col: Column)
  {
    forall r :: 0 <= r < Rows ==> g[col][r] != Empty
  }

  /** `row` is the lowest Empty cell of column `col`. */
  ghost predicate LowestEmpty(g: Grid, col: Column, row: Row)
  {
    g[col][row] == Empty && forall r :: 0 <= r < row ==> g[col][r] != Empty
  }

  /** The `free_spots` comprehension, restricted to the rows below `k`. */
  function FreeRowsBelow(g: Grid, col: Column, k: nat): (rows: seq<Row>)
    requires k <= Rows
    ensures forall i :: 0 <= i < |rows| ==> rows[i] < k && g[col][rows[i]] == Empty
    ensures forall r :: 0 <= r < k && g[col][r] == Empty ==> r in rows
    ensures forall i, j :: 0 <= i < j < |rows| ==> rows[i] < rows[j]
  {
    if k == 0 then []
    else FreeRowsBelow(g, col, k - 1) + (if g[col][k - 1] == Empty then [k - 1] else [])
  }

  /** The rows of column `col` holding Empty, lowest first (the `free_spots` list). */
  function FreeRows(g: Grid, col: Column): (rows: seq<Row>)
    ensures forall i :: 0 <= i < |rows| ==> g[col][rows[i]] == Empty
    ensures forall r :: 0 <= r < Rows && g[col][r] == Empty ==> r in rows
    ensures forall i, j :: 0 <= i < j < |rows| ==> rows[i] < rows[j]
  {
    FreeRowsBelow(g, col, Rows)
  }

  /** `g` with the cell (`col`, `row`) set to `p`. */
  function Put(g: Grid, col: Column, row: Row, p: Cell): (h: Grid)
    ensures forall c, r :: 0 <= c < Columns && 0 <= r < Rows ==>
              h[c][r] == if c == col && r == row then p else g[c][r]
  {
    g[col := g[col][row := p]]
  }

  /**
   * `State.move(col)` on values: fails when the column has no Empty cell, and
   * otherwise puts the mover's piece in the lowest Empty row and flips the turn.
   */
  function Play(b: Board, col: Column): (r: Result<Board>)
    ensures r.Err? <==> ColumnFull(b.grid, col)
    ensures r.Err? ==> r.error == FullColumn(col)
    ensures r.Ok? ==> r.value.player == Flip(b.player)
  {
    var free := FreeRows(b.grid, col);
    if free == [] then Err(FullColumn(col))
    else Ok(Board(Put(b.grid, col, free[0], b.player), Flip(b.player)))
  }

  /** A successful move changes exactly the lowest Empty cell of its column, to the mover's colour. */
  lemma PlayAtLowestEmpty(b: Board, col: Column, row: Row)
    requires LowestEmpty(b.grid, col, row)
    ensures Play(b, col) == Ok(Board(Put(b.grid, col, row, b.player), Flip(b.player)))
  {
    var free := FreeRows(b.grid, col);
    assert row in free;
    var i :| 0 <= i < |free| && free[i] == row;
    assert free[0] <= free[i];
    assert b.grid[col][free[0]] == Empty;
  }

  /** Every column that is not full has a lowest Empty cell. */
  lemma LowestEmptyExists(g: Grid, col: Column) returns (row: Row)
    requires !ColumnFull(g, col)
    ensures LowestEmpty(g, col, row)
  {
    var free := FreeRows(g, col);
    var r0 :| 0 <= r0 < Rows && g[col][r0] == Empty;
    assert r0 in free;
    row := free[0];
    forall r | 0 <= r < row ensures g[col][r] != Empty {
      if g[col][r] == Empty {
        assert false;
      }
    }
  }

  /** The column's occupied cells are contiguous from row 0 (no floating pieces). */
  ghost predicate Gravity(g: Grid)
  {
    forall c, r :: 0 <= c < Columns && 0 < r < Rows && g[c][r] != Empty ==> g[c][r - 1] != Empty
  }

  /** A move keeps every column stacked from the bottom. */
  lemma PlayKeepsGravity(b: Board, col: Column)
    requires Gravity(b.grid) && b.player != Empty && Play(b, col).Ok?
    ensures Gravity(Play(b, col).value.grid)
  {
    var row := LowestEmptyExists(b.grid, col);
    PlayAtLowestEmpty(b, col, row);
  }

  // ---------------------------------------------------------------------------
  // Counting pieces

  function CountPieces(cells: seq<Cell>): (n: nat)
    ensures n <= |cells|
  {
    if cells == [] then 0 else (if cells[0] != Empty then 1 else 0) + CountPieces(cells[1..])
  }

  function PiecesOf(cols: seq<seq<Cell>>): (n: nat)
    requires forall i :: 0 <= i < |cols| ==> |cols[i]| == Rows
    ensures n <= Rows * |cols|
  {
    if cols == [] then 0 else CountPieces(cols[0]) + PiecesOf(cols[1..])
  }

  /** The number of non-Empty cells of a grid, at most 42. */
  function Pieces(g: Grid): (n: nat)
    ensures n <= Columns * Rows
  {
    PiecesOf(g)
  }

  lemma {:induction false} CountPiecesFill(cells: seq<Cell>, i: nat, p: Cell)
    requires i < |cells| && cells[i] == Empty && p != Empty
    ensures CountPieces(cells[i := p]) == CountPieces(cells) + 1
  {
    if i > 0 {
      assert cells[i := p][1..] == cells[1..][i - 1 := p];
      CountPiecesFill(cells[1..], i - 1, p);
    } else {
      assert cells[i := p][1..] == cells[1..];
    }
  }

  lemma {:induction false} PiecesOfReplace(cols: seq<seq<Cell>>, i: nat, col: seq<Cell>)
    requires forall j :: 0 <= j < |cols| ==> |cols[j]| == Rows
    requires i < |cols| && |col| == Rows
    ensures PiecesOf(cols[i := col]) == PiecesOf(cols) - CountPieces(cols[i]) + CountPieces(col)
  {
    if i > 0 {
      assert cols[i := col][1..] == cols[1..][i - 1 := col];
      PiecesOfReplace(cols[1..], i - 1, col);
    } else {
      assert cols[i := col][1..] == cols[1..];
    }
  }

  /** A successful move adds exactly one piece to the board. */
  lemma PlayAddsOnePiece(b: Board, col: Column)
    requires b.player != Empty && Play(b, col).Ok?
    ensures Pieces(Play(b, col).value.grid) == Pieces(b.grid) + 1
  {
    var row := LowestEmptyExists(b.grid, col);
    PlayAtLowestEmpty(b, col, row);
    CountPiecesFill(b.grid[col], row, b.player);
    PiecesOfReplace(b.grid, col, b.grid[col][row := b.player]);
  }

  // ---------------------------------------------------------------------------
  // Legal columns

  /** The columns below `k` that still hold an Empty cell, in ascending order. */
  function AvailableBelow(g: Grid, k: nat): (cols: seq<Column>)
    requires k <= Columns
    ensures forall i :: 0 <= i < |cols| ==> cols[i] < k
    ensures forall i, j :: 0 <= i < j < |cols| ==> cols[i] < cols[j]
    ensures forall c: Column :: c < k ==> (c in cols <==> !ColumnFull(g, c))
  {
    if k == 0 then []
    else AvailableBelow(g, k - 1) + (if Empty in g[k - 1] then [k - 1] else [])
  }

  /** `State.available_moves`: the columns holding an Empty cell, ascending. */
  function AvailableMoves(b: Board): (cols: seq<Column>)
    ensures forall i, j :: 0 <= i < j < |cols| ==> cols[i] < cols[j]
    ensures forall c: Column :: c in cols <==> !ColumnFull(b.grid, c)
  {
    AvailableBelow(b.grid, Columns)
  }

  /** Every column `available_moves` offers is accepted by `move`, and no other column is. */
  lemma AvailableMovesArePlayable(b: Board, col: Column)
    ensures col in AvailableMoves(b) <==> Play(b, col).Ok?
  {
  }

  /** With every column full, `available_moves` is empty. */
  lemma AllFullNoMoves(b: Board)
    ensures (forall c: Column :: ColumnFull(b.grid, c)) ==> AvailableMoves(b) == []
  {
    var ms := AvailableMoves(b);
    if ms != [] {
      assert !ColumnFull(b.grid, ms[0]);
    }
  }

  /** No legal column is left exactly when every cell of the board is occupied. */
  lemma NoMovesIffFull(b: Board)
    ensures AvailableMoves(b) == [] <==> Pieces(b.grid) == Columns * Rows
  {
    var g := b.grid;
    var ms := AvailableMoves(b);
    PiecesOfFull(g);
    if ms == [] {
      forall i | 0 <= i < |g|
        ensures Empty !in g[i]
      {
        var c: Column := i;
        assert c !in ms;
        assert forall r :: 0 <= r < |g[c]| ==> g[c][r] != Empty;
      }
    } else {
      var row := LowestEmptyExists(g, ms[0]);
      assert g[ms[0]][row] == Empty;
    }
  }

  lemma {:induction false} CountPiecesFull(cells: seq<Cell>)
    ensures CountPieces(cells) == |cells| <==> Empty !in cells
  {
    if cells != [] {
      CountPiecesFull(cells[1..]);
      assert cells == [cells[0]] + cells[1..];
    }
  }

  lemma {:induction false} PiecesOfFull(cols: seq<seq<Cell>>)
    requires forall i :: 0 <= i < |cols| ==> |cols[i]| == Rows
    ensures PiecesOf(cols) == Rows * |cols| <==> forall i :: 0 <= i < |cols| ==> Empty !in cols[i]
  {
    if cols != [] {
      CountPiecesFull(cols[0]);
      PiecesOfFull(cols[1..]);
      assert forall i :: 1 <= i < |cols| ==> cols[i] == cols[1..][i - 1];
    }
  }

  // ---------------------------------------------------------------------------
  // Four in a row

  /** The four directions `winner` checks. */
  datatype Orientation = Horizontal | Vertical | Falling | Rising

  /** Column step of a direction. */
  function DeltaCol(o: Orientation): int
  {
    if o == Vertical then 0 else 1
  }

  /** Row step of a direction; `Falling` is the nw-se diagonal, `Rising` the sw-ne one. */
  function DeltaRow(o: Orientation): int
  {
    match o
    case Horizontal => 0
    case Vertical => 1
    case Falling => -1
    case Rising => 1
  }

  /** The four cells from (`col`, `row`) along `o` all lie on the board. */
  ghost predicate Fits(o: Orientation, col: int, row: int)
  {
    0 <= col < Columns && 0 <= row < Rows &&
    0 <= col + 3 * DeltaCol(o) < Columns && 0 <= row + 3 * DeltaRow(o) < Rows
  }

  /** Reference definition: four `c` cells in a row from (`col`, `row`) along `o`. */
  ghost predicate LineOf(g: Grid, c: Cell, o: Orientation, col: int, row: int)
  {
    c != Empty && Fits(o, col, row) &&
    g[col][row] == c &&
    g[col + DeltaCol(o)][row + DeltaRow(o)] == c &&
    g[col + 2 * DeltaCol(o)][row + 2 * DeltaRow(o)] == c &&
    g[col + 3 * DeltaCol(o)][row + 3 * DeltaRow(o)] == c
  }

  /** Colour `c` has four in a row somewhere on the board, in any of the four directions. */
  ghost predicate HasLine(g: Grid, c: Cell)
  {
    exists o: Orientation, col: int, row: int :: LineOf(g, c, o, col, row)
  }

  /** The loop bounds of `winner`: first row, row bound and column bound scanned per direction. */
  function RowStart(o: Orientation): nat
  {
    if o == Falling then 3 else 0
  }

  function RowStop(o: Orientation): nat
  {
    if o == Vertical || o == Rising then Rows - 3 else Rows
  }

  function ColStop(o: Orientation): nat
  {
    if o == Vertical then Columns else Columns - 3
  }

  /**
   * The test `winner` applies at one start cell: non-Empty and equal to its three
   * successors, which holds exactly when a line of that cell's colour starts there.
   */
  predicate LineAt(g: Grid, o: Orientation, col: nat, row: nat): (b: bool)
    requires col < ColStop(o) && RowStart(o) <= row < RowStop(o)
    ensures b <==> LineOf(g, g[col][row], o, col, row)
  {
    g[col][row] != Empty &&
    g[col][row] == g[col + DeltaCol(o)][row + DeltaRow(o)] &&
    g[col + DeltaCol(o)][row + DeltaRow(o)] == g[col + 2 * DeltaCol(o)][row + 2 * DeltaRow(o)] &&
    g[col + 2 * DeltaCol(o)][row + 2 * DeltaRow(o)] == g[col + 3 * DeltaCol(o)][row + 3 * DeltaRow(o)]
  }

  /**
   * One of `winner`'s nested loops, resumed at (`col`, `row`): rows outer, columns
   * inner, returning the colour of the first start cell that passes the test.
   */
  function ScanFrom(g: Grid, o: Orientation, row: nat, col: nat): (r: Option<Cell>)
    requires RowStart(o) <= row && col <= ColStop(o)
    ensures r.Some? ==> r.value != Empty
    decreases RowStop(o) - row, ColStop(o) - col
  {
    if row >= RowStop(o) then None
    else if col == ColStop(o) then ScanFrom(g, o, row + 1, 0)
    else if LineAt(g, o, col, row) then Some(g[col][row])
    else ScanFrom(g, o, row, col + 1)
  }

  /** One of `winner`'s four nested loops, from its first start cell. */
  function Scan(g: Grid, o: Orientation): (r: Option<Cell>)
    ensures r.Some? ==> r.value != Empty
  {
    ScanFrom(g, o, RowStart(o), 0)
  }

  /**
   * `State.winner`: horizontal, then vertical, then nw-se, then sw-ne lines; the
   * colour of the first line found, or None (also on a full board without a line).
   */
  function Winner(g: Grid): (r: Option<Cell>)
    ensures r.Some? ==> r.value != Empty
  {
    var h := Scan(g, Horizontal);
    if h.Some? then h else
    var v := Scan(g, Vertical);
    if v.Some? then v else
    var f := Scan(g, Falling);
    if f.Some? then f else
    Scan(g, Rising)
  }

  /** Every line on the board starts inside the ranges the scan for its direction visits. */
  lemma FitsInScanRange(o: Orientation, col: int, row: int)
    requires Fits(o, col, row)
    ensures col < ColStop(o) && RowStart(o) <= row < RowStop(o)
  {
  }

  lemma {:induction false} ScanFromSound(g: Grid, o: Orientation, row: nat, col: nat)
    requires RowStart(o) <= row && col <= ColStop(o)
    requires ScanFrom(g, o, row, col).Some?
    ensures HasLine(g, ScanFrom(g, o, row, col).value)
    decreases RowStop(o) - row, ColStop(o) - col
  {
    if row >= RowStop(o) {
    } else if col == ColStop(o) {
      ScanFromSound(g, o, row + 1, 0);
    } else if LineAt(g, o, col, row) {
      assert LineOf(g, g[col][row], o, col, row);
    } else {
      ScanFromSound(g, o, row, col + 1);
    }
  }

  lemma {:induction false} ScanFromComplete(g: Grid, o: Orientation, row: nat, col: nat, r: nat, c: nat)
    requires RowStart(o) <= row && col <= ColStop(o)
    requires c < ColStop(o) && r < RowStop(o) && (r > row || (r == row && c >= col))
    requires LineAt(g, o, c, r)
    ensures ScanFrom(g, o, row, col).Some?
    decreases RowStop(o) - row, ColStop(o) - col
  {
    if col == ColStop(o) {
      ScanFromComplete(g, o, row + 1, 0, r, c);
    } else if !LineAt(g, o, col, row) {
      ScanFromComplete(g, o, row, col + 1, r, c);
    }
  }

  /** Soundness: a colour `winner` reports has four in a row on the board. */
  lemma WinnerSound(g: Grid)
    requires Winner(g).Some?
    ensures Winner(g).value != Empty && HasLine(g, Winner(g).value)
  {
    var o :=
      if Scan(g, Horizontal).Some? then Horizontal
      else if Scan(g, Vertical).Some? then Vertical
      else if Scan(g, Falling).Some? then Falling
      else Rising;
    ScanFromSound(g, o, RowStart(o), 0);
  }

  /** Completeness: whenever some colour has four in a row, `winner` does not return None. */
  lemma WinnerComplete(g: Grid, c: Cell)
    requires HasLine(g, c)
    ensures Winner(g).Some?
  {
    var o, col, row :| LineOf(g, c, o, col, row);
    FitsInScanRange(o, col, row);
    assert LineAt(g, o, col, row);
    ScanFromComplete(g, o, RowStart(o), 0, row, col);
  }

  /** `winner` returns None exactly when no colour has four in a row, full board or not. */
  lemma WinnerNoneIffNoLine(g: Grid)
    ensures Winner(g).None? <==> forall c :: !HasLine(g, c)
  {
    if Winner(g).Some? {
      WinnerSound(g);
    } else {
      forall c ensures !HasLine(g, c) {
        if HasLine(g, c) {
          WinnerComplete(g, c);
        }
      }
    }
  }

  /** A move never breaks a line: cells, once set, are never unset. */
  lemma PlayKeepsLines(b: Board, col: Column, c: Cell)
    requires HasLine(b.grid, c) && Play(b, col).Ok?
    ensures HasLine(Play(b, col).value.grid, c)
  {
    var o, x, y :| LineOf(b.grid, c, o, x, y);
    var row := LowestEmptyExists(b.grid, col);
    PlayAtLowestEmpty(b, col, row);
    PutKeepsLine(b.grid, col, row, b.player, c, o, x, y);
  }

  /** Filling an Empty cell leaves every line in place, since a line has no Empty cell. */
  lemma PutKeepsLine(g: Grid, col: Column, row: Row, p: Cell, c: Cell, o: Orientation, x: int, y: int)
    requires LineOf(g, c, o, x, y) && g[col][row] == Empty
    ensures LineOf(Put(g, col, row, p), c, o, x, y)
  {
    var h := Put(g, col, row, p);
    var dc, dr := DeltaCol(o), DeltaRow(o);
    assert h[x][y] == g[x][y];
    assert h[x + dc][y + dr] == g[x + dc][y + dr];
    assert h[x + 2 * dc][y + 2 * dr] == g[x + 2 * dc][y + 2 * dr];
    assert h[x + 3 * dc][y + 3 * dr] == g[x + 3 * dc][y + 3 * dr];
  }

  /**
   * The game result that mcts.py relies on and connect4.py does not provide: a win
   * when a colour has four in a row, a Tie on a full board without one.
   */
  datatype Outcome = Undecided | Win(colour: Cell) | Tie

  function Decide(b: Board): (o: Outcome)
  {
    match Winner(b.grid)
    case Some(c) => Win(c)
    case None => if AvailableMoves(b) == [] then Tie else Undecided
  }

  /** The outcome in terms of lines and pieces: a win is a line of the winner's colour, a tie a full board without lines. */
  lemma DecideMeaning(b: Board)
    ensures Decide(b).Win? ==> Decide(b).colour != Empty && HasLine(b.grid, Decide(b).colour)
    ensures Decide(b) == Tie <==> (forall c :: !HasLine(b.grid, c)) && Pieces(b.grid) == Columns * Rows
    ensures Decide(b) == Undecided <==> (forall c :: !HasLine(b.grid, c)) && AvailableMoves(b) != []
  {
    WinnerNoneIffNoLine(b.grid);
    NoMovesIffFull(b);
    if Winner(b.grid).Some? {
      WinnerSound(b.grid);
    }
  }

  // ---------------------------------------------------------------------------
  // Sequences of moves

  /** The board after playing the columns of `path` in order, or the first failure. */
  function Replay(b: Board, path: seq<Column>): Result<Board>
    decreases |path|
  {
    if path == [] then Ok(b)
    else match Replay(b, path[..|path| - 1])
      case Err(e) => Err(e)
      case Ok(mid) => Play(mid, path[|path| - 1])
  }

  /** The moves of `path`, played from `from`, lead to `to`. */
  ghost predicate Leads(from: Board, path: seq<Column>, to: Board)
  {
    Replay(from, path) == Ok(to)
  }

  /** `to` is reached from `from` by legal moves. */
  ghost predicate Reachable(from: Board, to: Board)
  {
    exists path: seq<Column> :: Leads(from, path, to)
  }

  /** Every board before the last one along `path` from `from` is undecided: the game goes on until the end of `path`. */
  ghost predicate OpenAlong(from: Board, path: seq<Column>)
  {
    forall i :: 0 <= i < |path| ==> Replay(from, path[..i]).Ok? && Decide(Replay(from, path[..i]).value) == Undecided
  }

  /** `to` is the first decided board of a game played from `from` by legal moves. */
  ghost predicate PlayedOut(from: Board, to: Board)
  {
    exists path: seq<Column> :: Leads(from, path, to) && OpenAlong(from, path) && Decide(to) != Undecided
  }

  /** One more move after an undecided board keeps the game open along the longer path. */
  lemma OpenAlongSnoc(from: Board, path: seq<Column>, col: Column)
    requires OpenAlong(from, path) && Replay(from, path).Ok? && Decide(Replay(from, path).value) == Undecided
    ensures OpenAlong(from, path + [col])
  {
    var path' := path + [col];
    forall i | 0 <= i < |path'|
      ensures Replay(from, path'[..i]).Ok? && Decide(Replay(from, path'[..i]).value) == Undecided
    {
      assert path'[..i] == path[..i];
    }
  }

  /** A game played out from a board that is already decided has not moved: it ends where it starts. */
  lemma PlayedOutFromDecided(from: Board, to: Board)
    requires Decide(from) != Undecided && PlayedOut(from, to)
    ensures to == from
  {
    var path :| Leads(from, path, to) && OpenAlong(from, path) && Decide(to) != Undecided;
    if path != [] {
      OpenAlongStart(from, path);
      assert false;
    }
  }

  /** A game that goes on after its first move started on an undecided board. */
  lemma OpenAlongStart(from: Board, path: seq<Column>)
    requires OpenAlong(from, path) && path != []
    ensures Decide(from) == Undecided
  {
    assert path[..0] == [];
  }

  /** Playing a legal column after the moves of `path` extends `path` by it and adds one piece. */
  lemma ReplayStep(b: Board, path: seq<Column>, mid: Board, col: Column) returns (path': seq<Column>)
    requires Replay(b, path) == Ok(mid) && mid.player != Empty && col in AvailableMoves(mid)
    ensures path' == path + [col]
    ensures Play(mid, col).Ok? && Replay(b, path') == Play(mid, col)
    ensures Pieces(Play(mid, col).value.grid) == Pieces(mid.grid) + 1
  {
    AvailableMovesArePlayable(mid, col);
    PlayAddsOnePiece(mid, col);
    path' := path + [col];
    assert path'[..|path|] == path;
  }

  /** Playing `p` and then `q` is playing `p + q`. */
  lemma {:induction false} ReplayAppend(b: Board, p: seq<Column>, q: seq<Column>)
    ensures Replay(b, p + q) == match Replay(b, p) case Err(e) => Err(e) case Ok(mid) => Replay(mid, q)
    decreases |q|
  {
    if q == [] {
      assert p + q == p;
    } else {
      assert (p + q)[..|p + q| - 1] == p + q[..|q| - 1];
      ReplayAppend(b, p, q[..|q| - 1]);
    }
  }

  /** A sequence of legal moves hands the turn back and forth, one flip per move. */
  lemma {:induction false} ReplayAlternates(b: Board, path: seq<Column>)
    requires b.player != Empty && Replay(b, path).Ok?
    ensures Replay(b, path).value.player == if |path| % 2 == 0 then b.player else Flip(b.player)
    decreases |path|
  {
    if path != [] {
      var p := path[..|path| - 1];
      ReplayAlternates(b, p);
      Parity(|path|);
    }
  }

  lemma Parity(n: nat)
    requires n > 0
    ensures (n - 1) % 2 == 0 <==> n % 2 == 1
  {
  }

  /** A sequence of legal moves adds one piece per move and keeps every column stacked. */
  lemma {:induction false} ReplayStacks(b: Board, path: seq<Column>)
    requires b.player != Empty && Gravity(b.grid) && Replay(b, path).Ok?
    ensures Pieces(Replay(b, path).value.grid) == Pieces(b.grid) + |path|
    ensures Gravity(Replay(b, path).value.grid)
    decreases |path|
  {
    if path != [] {
      var p := path[..|path| - 1];
      ReplayStacks(b, p);
      ReplayAlternates(b, p);
      var mid := Replay(b, p).value;
      assert mid.player != Empty;
      PlayAddsOnePiece(mid, path[|path| - 1]);
      PlayKeepsGravity(mid, path[|path| - 1]);
    }
  }

  /** Lines survive any sequence of moves, so once `winner` reports a colour it keeps reporting one. */
  lemma {:induction false} ReplayKeepsLines(b: Board, path: seq<Column>, c: Cell)
    requires HasLine(b.grid, c) && Replay(b, path).Ok?
    ensures HasLine(Replay(b, path).value.grid, c)
    decreases |path|
  {
    if path != [] {
      var p := path[..|path| - 1];
      ReplayKeepsLines(b, p, c);
      PlayKeepsLines(Replay(b, p).value, path[|path| - 1], c);
    }
  }

  /** A full board, 21 pieces of each colour, without four in a row. */
  function DrawnGrid(): Grid
  {
    [[Red, Yellow, Yellow, Red, Yellow, Red],
     [Yellow, Red, Yellow, Red, Yellow, Red],
     [Red, Yellow, Yellow, Yellow, Red, Yellow],
     [Red, Red, Red, Yellow, Red, Yellow],
     [Yellow, Yellow, Red, Red, Yellow, Yellow],
     [Red, Red, Yellow, Yellow, Yellow, Red],
     [Yellow, Red, Red, Red, Yellow, Red]]
  }

  lemma DrawnGridNoHorizontal()
    ensures Scan(DrawnGrid(), Horizontal) == None
  {
    var g := DrawnGrid();
    assert ScanFrom(g, Horizontal, 5, 0) == None;
    assert ScanFrom(g, Horizontal, 4, 0) == None;
    assert ScanFrom(g, Horizontal, 3, 0) == None;
    assert ScanFrom(g, Horizontal, 2, 0) == None;
    assert ScanFrom(g, Horizontal, 1, 0) == None;
    assert ScanFrom(g, Horizontal, 0, 0) == None;
  }

  lemma DrawnGridNoVertical()
    ensures Scan(DrawnGrid(), Vertical) == None
  {
    var g := DrawnGrid();
    assert ScanFrom(g, Vertical, 2, 0) == None;
    assert ScanFrom(g, Vertical, 1, 0) == None;
    assert ScanFrom(g, Vertical, 0, 0) == None;
  }

  lemma DrawnGridNoFalling()
    ensures Scan(DrawnGrid(), Falling) == None
  {
    var g := DrawnGrid();
    assert ScanFrom(g, Falling, 5, 0) == None;
    assert ScanFrom(g, Falling, 4, 0) == None;
    assert ScanFrom(g, Falling, 3, 0) == None;
  }

  lemma DrawnGridNoRising()
    ensures Scan(DrawnGrid(), Rising) == None
  {
    var g := DrawnGrid();
    assert ScanFrom(g, Rising, 2, 0) == None;
    assert ScanFrom(g, Rising, 1, 0) == None;
    assert ScanFrom(g, Rising, 0, 0) == None;
  }

  /** Every column of the drawn grid is full. */
  lemma DrawnGridFull(c: Column)
    ensures ColumnFull(DrawnGrid(), c)
  {
  }

  lemma DrawnGridNoMoves(g: Grid)
    requires g == DrawnGrid()
    ensures AvailableMoves(Board(g, Red)) == []
  {
    forall c: Column
      ensures ColumnFull(g, c)
    {
      DrawnGridFull(c);
    }
    AllFullNoMoves(Board(g, Red));
  }

  lemma DrawnGridNoWinner(g: Grid)
    requires g == DrawnGrid()
    ensures Winner(g) == None
  {
    DrawnGridNoHorizontal();
    DrawnGridNoVertical();
    DrawnGridNoFalling();
    DrawnGridNoRising();
  }

  /** A full board on which no colour has four in a row: `winner` gives None and no column is legal. */
  lemma DrawnBoardIsStuck(g: Grid)
    requires g == DrawnGrid()
    ensures Winner(g) == None
    ensures AvailableMoves(Board(g, Red)) == []
  {
    DrawnGridNoWinner(g);
    DrawnGridNoMoves(g);
  }

  /** How many pieces each column holds while a full grid is filled up. */
  datatype Stacks = Stacks(c0: nat, c1: nat, c2: nat, c3: nat, c4: nat, c5: nat, c6: nat)

  function Height(s: Stacks, c: Column): nat
  {
    if c == 0 then s.c0 else if c == 1 then s.c1 else if c == 2 then s.c2 else if c == 3 then s.c3
    else if c == 4 then s.c4 else if c == 5 then s.c5 else s.c6
  }

  /** `s` with one more piece in column `col`. */
  function Raise(s: Stacks, col: Column): Stacks
  {
    if col == 0 then s.(c0 := s.c0 + 1) else if col == 1 then s.(c1 := s.c1 + 1)
    else if col == 2 then s.(c2 := s.c2 + 1) else if col == 3 then s.(c3 := s.c3 + 1)
    else if col == 4 then s.(c4 := s.c4 + 1) else if col == 5 then s.(c5 := s.c5 + 1) else s.(c6 := s.c6 + 1)
  }

  /** Raising column `col` adds one piece to `col` and leaves every other column as it was. */
  lemma RaiseHeight(s: Stacks, col: Column, c: Column)
    ensures Height(Raise(s, col), c) == if c == col then Height(s, c) + 1 else Height(s, c)
  {
  }

  /** The grid holding `d`'s cells below height `Height(s, c)` in each column `c`, and Empty above. */
  function Partial(d: Grid, s: Stacks): Grid
  {
    seq(Columns, c requires 0 <= c < Columns => seq(Rows, r requires 0 <= r < Rows => if r < Height(s, c) then d[c][r] else Empty))
  }

  lemma PartialAt(d: Grid, s: Stacks, c: Column, r: Row)
    ensures Partial(d, s)[c][r] == if r < Height(s, c) then d[c][r] else Empty
  {
  }

  /** Every cell of `d` holds a piece. */
  ghost predicate Filled(d: Grid)
  {
    forall c, r :: 0 <= c < Columns && 0 <= r < Rows ==> d[c][r] != Empty
  }

  /** Grids with the same cells are equal. */
  lemma GridsEqual(g: Grid, g': Grid)
    requires forall c, r :: 0 <= c < Columns && 0 <= r < Rows ==> g[c][r] == g'[c][r]
    ensures g == g'
  {
    forall c | 0 <= c < Columns
      ensures g[c] == g'[c]
    {
      assert forall r :: 0 <= r < Rows ==> g[c][r] == g'[c][r];
    }
  }

  /**
   * On a reachable board holding the bottom of the full grid `d`, dropping into
   * `col` the piece `d` has next there, when it is the mover's, is legal and
   * reaches the board with that cell added.
   */
  lemma DropOnto(b0: Board, d: Grid, s: Stacks, p: Cell, col: Column, row: Row, s': Stacks, p': Cell, path: seq<Column>)
    returns (path': seq<Column>)
    requires Filled(d) && Height(s, col) == row && s' == Raise(s, col)
    requires p != Empty && d[col][row] == p && p' == Flip(p)
    requires Replay(b0, path) == Ok(Board(Partial(d, s), p))
    ensures Replay(b0, path') == Ok(Board(Partial(d, s'), p'))
  {
    forall c: Column
      ensures Height(s', c) == if c == col then Height(s, c) + 1 else Height(s, c)
    {
      RaiseHeight(s, col, c);
    }
    var b := Board(Partial(d, s), p);
    PlayAtLowestEmpty(b, col, row);
    GridsEqual(Put(b.grid, col, row, p), Partial(d, s'));
    path' := path + [col];
    assert path'[..|path|] == path;
  }

  /** Moves 1 to 3 of the drawn game each drop the drawn grid's next piece of their column. */
  lemma DrawnMoves0(b0: Board, d: Grid, path: seq<Column>) returns (path': seq<Column>)
    requires Filled(d) && d[3][0] == Red && d[1][0] == Yellow && d[0][0] == Red
    requires Replay(b0, path) == Ok(Board(Partial(d, Stacks(0, 0, 0, 0, 0, 0, 0)), Red))
    ensures Replay(b0, path') == Ok(Board(Partial(d, Stacks(1, 1, 0, 1, 0, 0, 0)), Yellow))
  {
    path' := DropOnto(b0, d, Stacks(0, 0, 0, 0, 0, 0, 0), Red, 3, 0, Stacks(0, 0, 0, 1, 0, 0, 0), Yellow, path);
    path' := DropOnto(b0, d, Stacks(0, 0, 0, 1, 0, 0, 0), Yellow, 1, 0, Stacks(0, 1, 0, 1, 0, 0, 0), Red, path');
    path' := DropOnto(b0, d, Stacks(0, 1, 0, 1, 0, 0, 0), Red, 0, 0, Stacks(1, 1, 0, 1, 0, 0, 0), Yellow, path');
  }

  /** Moves 4 to 6 of the drawn game each drop the drawn grid's next piece of their column. */
  lemma DrawnMoves1(b0: Board, d: Grid, path: seq<Column>) returns (path': seq<Column>)
    requires Filled(d) && d[0][1] == Yellow && d[1][1] == Red && d[6][0] == Yellow
    requires Replay(b0, path) == Ok(Board(Partial(d, Stacks(1, 1, 0, 1, 0, 0, 0)), Yellow))
    ensures Replay(b0, path') == Ok(Board(Partial(d, Stacks(2, 2, 0, 1, 0, 0, 1)), Red))
  {
    path' := DropOnto(b0, d, Stacks(1, 1, 0, 1, 0, 0, 0), Yellow, 0, 1, Stacks(2, 1, 0, 1, 0, 0, 0), Red, path);
    path' := DropOnto(b0, d, Stacks(2, 1, 0, 1, 0, 0, 0), Red, 1, 1, Stacks(2, 2, 0, 1, 0, 0, 0), Yellow, path');
    path' := DropOnto(b0, d, Stacks(2, 2, 0, 1, 0, 0, 0), Yellow, 6, 0, Stacks(2, 2, 0, 1, 0, 0, 1), Red, path');
  }

  /** Moves 7 to 9 of the drawn game each drop the drawn grid's next piece of their column. */
  lemma DrawnMoves2(b0: Board, d: Grid, path: seq<Column>) returns (path': seq<Column>)
    requires Filled(d) && d[2][0] == Red && d[1][2] == Yellow && d[6][1] == Red
    requires Replay(b0, path) == Ok(Board(Partial(d, Stacks(2, 2, 0, 1, 0, 0, 1)), Red))
    ensures Replay(b0, path') == Ok(Board(Partial(d, Stacks(2, 3, 1, 1, 0, 0, 2)), Yellow))
  {
    path' := DropOnto(b0, d, Stacks(2, 2, 0, 1, 0, 0, 1), Red, 2, 0, Stacks(2, 2, 1, 1, 0, 0, 1), Yellow, path);
    path' := DropOnto(b0, d, Stacks(2, 2, 1, 1, 0, 0, 1), Yellow, 1, 2, Stacks(2, 3, 1, 1, 0, 0, 1), Red, path');
    path' := DropOnto(b0, d, Stacks(2, 3, 1, 1, 0, 0, 1), Red, 6, 1, Stacks(2, 3, 1, 1, 0, 0, 2), Yellow, path');
  }

  /** Moves 10 to 12 of the drawn game each drop the drawn grid's next piece of their column. */
  lemma DrawnMoves3(b0: Board, d: Grid, path: seq<Column>) returns (path': seq<Column>)
    requires Filled(d) && d[2][1] == Yellow && d[5][0] == Red && d[2][2] == Yellow
    requires Replay(b0, path) == Ok(Board(Partial(d, Stacks(2, 3, 1, 1, 0, 0, 2)), Yellow))
    ensures Replay(b0, path') == Ok(Board(Partial(d, Stacks(2, 3, 3, 1, 0, 1, 2)), Red))
  {
    path' := DropOnto(b0, d, Stacks(2, 3, 1, 1, 0, 0, 2), Yellow, 2, 1, Stacks(2, 3, 2, 1, 0, 0, 2), Red, path);
    path' := DropOnto(b0, d, Stacks(2, 3, 2, 1, 0, 0, 2), Red, 5, 0, Stacks(2, 3, 2, 1, 0, 1, 2), Yellow, path');
    path' := DropOnto(b0, d, Stacks(2, 3, 2, 1, 0, 1, 2), Yellow, 2, 2, Stacks(2, 3, 3, 1, 0, 1, 2), Red, path');
  }

  /** Moves 13 to 15 of the drawn game each drop the drawn grid's next piece of their column. */
  lemma DrawnMoves4(b0: Board, d: Grid, path: seq<Column>) returns (path': seq<Column>)
    requires Filled(d) && d[1][3] == Red && d[1][4] == Yellow && d[3][1] == Red
    requires Replay(b0, path) == Ok(Board(Partial(d, Stacks(2, 3, 3, 1, 0, 1, 2)), Red))
    ensures Replay(b0, path') == Ok(Board(Partial(d, Stacks(2, 5, 3, 2, 0, 1, 2)), Yellow))
  {
    path' := DropOnto(b0, d, Stacks(2, 3, 3, 1, 0, 1, 2), Red, 1, 3, Stacks(2, 4, 3, 1, 0, 1, 2), Yellow, path);
    path' := DropOnto(b0, d, Stacks(2, 4, 3, 1, 0, 1, 2), Yellow, 1, 4, Stacks(2, 5, 3, 1, 0, 1, 2), Red, path');
    path' := DropOnto(b0, d, Stacks(2, 5, 3, 1, 0, 1, 2), Red, 3, 1, Stacks(2, 5, 3, 2, 0, 1, 2), Yellow, path');
  }

  /** Moves 16 to 18 of the drawn game each drop the drawn grid's next piece of their column. */
  lemma DrawnMoves5(b0: Board, d: Grid, path: seq<Column>) returns (path': seq<Column>)
    requires Filled(d) && d[2][3] == Yellow && d[5][1] == Red && d[5][2] == Yellow
    requires Replay(b0, path) == Ok(Board(Partial(d, Stacks(2, 5, 3, 2, 0, 1, 2)), Yellow))
    ensures Replay(b0, path') == Ok(Board(Partial(d, Stacks(2, 5, 4, 2, 0, 3, 2)), Red))
  {
    path' := DropOnto(b0, d, Stacks(2, 5, 3, 2, 0, 1, 2), Yellow, 2, 3, Stacks(2, 5, 4, 2, 0, 1, 2), Red, path);
    path' := DropOnto(b0, d, Stacks(2, 5, 4, 2, 0, 1, 2), Red, 5, 1, Stacks(2, 5, 4, 2, 0, 2, 2), Yellow, path');
    path' := DropOnto(b0, d, Stacks(2, 5, 4, 2, 0, 2, 2), Yellow, 5, 2, Stacks(2, 5, 4, 2, 0, 3, 2), Red, path');
  }

  /** Moves 19 to 21 of the drawn game each drop the drawn grid's next piece of their column. */
  lemma DrawnMoves6(b0: Board, d: Grid, path: seq<Column>) returns (path': seq<Column>)
    requires Filled(d) && d[3][2] == Red && d[0][2] == Yellow && d[6][2] == Red
    requires Replay(b0, path) == Ok(Board(Partial(d, Stacks(2, 5, 4, 2, 0, 3, 2)), Red))
    ensures Replay(b0, path') == Ok(Board(Partial(d, Stacks(3, 5, 4, 3, 0, 3, 3)), Yellow))
  {
    path' := DropOnto(b0, d, Stacks(2, 5, 4, 2, 0, 3, 2), Red, 3, 2, Stacks(2, 5, 4, 3, 0, 3, 2), Yellow, path);
    path' := DropOnto(b0, d, Stacks(2, 5, 4, 3, 0, 3, 2), Yellow, 0, 2, Stacks(3, 5, 4, 3, 0, 3, 2), Red, path');
    path' := DropOnto(b0, d, Stacks(3, 5, 4, 3, 0, 3, 2), Red, 6, 2, Stacks(3, 5, 4, 3, 0, 3, 3), Yellow, path');
  }

  /** Moves 22 to 24 of the drawn game each drop the drawn grid's next piece of their column. */
  lemma DrawnMoves7(b0: Board, d: Grid, path: seq<Column>) returns (path': seq<Column>)
    requires Filled(d) && d[5][3] == Yellow && d[1][5] == Red && d[5][4] == Yellow
    requires Replay(b0, path) == Ok(Board(Partial(d, Stacks(3, 5, 4, 3, 0, 3, 3)), Yellow))
    ensures Replay(b0, path') == Ok(Board(Partial(d, Stacks(3, 6, 4, 3, 0, 5, 3)), Red))
  {
    path' := DropOnto(b0, d, Stacks(3, 5, 4, 3, 0, 3, 3), Yellow, 5, 3, Stacks(3, 5, 4, 3, 0, 4, 3), Red, path);
    path' := DropOnto(b0, d, Stacks(3, 5, 4, 3, 0, 4, 3), Red, 1, 5, Stacks(3, 6, 4, 3, 0, 4, 3), Yellow, path');
    path' := DropOnto(b0, d, Stacks(3, 6, 4, 3, 0, 4, 3), Yellow, 5, 4, Stacks(3, 6, 4, 3, 0, 5, 3), Red, path');
  }

  /** Moves 25 to 27 of the drawn game each drop the drawn grid's next piece of their column. */
  lemma DrawnMoves8(b0: Board, d: Grid, path: seq<Column>) returns (path': seq<Column>)
    requires Filled(d) && d[6][3] == Red && d[3][3] == Yellow && d[2][4] == Red
    requires Replay(b0, path) == Ok(Board(Partial(d, Stacks(3, 6, 4, 3, 0, 5, 3)), Red))
    ensures Replay(b0, path') == Ok(Board(Partial(d, Stacks(3, 6, 5, 4, 0, 5, 4)), Yellow))
  {
    path' := DropOnto(b0, d, Stacks(3, 6, 4, 3, 0, 5, 3), Red, 6, 3, Stacks(3, 6, 4, 3, 0, 5, 4), Yellow, path);
    path' := DropOnto(b0, d, Stacks(3, 6, 4, 3, 0, 5, 4), Yellow, 3, 3, Stacks(3, 6, 4, 4, 0, 5, 4), Red, path');
    path' := DropOnto(b0, d, Stacks(3, 6, 4, 4, 0, 5, 4), Red, 2, 4, Stacks(3, 6, 5, 4, 0, 5, 4), Yellow, path');
  }

  /** Moves 28 to 30 of the drawn game each drop the drawn grid's next piece of their column. */
  lemma DrawnMoves9(b0: Board, d: Grid, path: seq<Column>) returns (path': seq<Column>)
    requires Filled(d) && d[6][4] == Yellow && d[6][5] == Red && d[2][5] == Yellow
    requires Replay(b0, path) == Ok(Board(Partial(d, Stacks(3, 6, 5, 4, 0, 5, 4)), Yellow))
    ensures Replay(b0, path') == Ok(Board(Partial(d, Stacks(3, 6, 6, 4, 0, 5, 6)), Red))
  {
    path' := DropOnto(b0, d, Stacks(3, 6, 5, 4, 0, 5, 4), Yellow, 6, 4, Stacks(3, 6, 5, 4, 0, 5, 5), Red, path);
    path' := DropOnto(b0, d, Stacks(3, 6, 5, 4, 0, 5, 5), Red, 6, 5, Stacks(3, 6, 5, 4, 0, 5, 6), Yellow, path');
    path' := DropOnto(b0, d, Stacks(3, 6, 5, 4, 0, 5, 6), Yellow, 2, 5, Stacks(3, 6, 6, 4, 0, 5, 6), Red, path');
  }

  /** Moves 31 to 33 of the drawn game each drop the drawn grid's next piece of their column. */
  lemma DrawnMoves10(b0: Board, d: Grid, path: seq<Column>) returns (path': seq<Column>)
    requires Filled(d) && d[5][5] == Red && d[4][0] == Yellow && d[3][4] == Red
    requires Replay(b0, path) == Ok(Board(Partial(d, Stacks(3, 6, 6, 4, 0, 5, 6)), Red))
    ensures Replay(b0, path') == Ok(Board(Partial(d, Stacks(3, 6, 6, 5, 1, 6, 6)), Yellow))
  {
    path' := DropOnto(b0, d, Stacks(3, 6, 6, 4, 0, 5, 6), Red, 5, 5, Stacks(3, 6, 6, 4, 0, 6, 6), Yellow, path);
    path' := DropOnto(b0, d, Stacks(3, 6, 6, 4, 0, 6, 6), Yellow, 4, 0, Stacks(3, 6, 6, 4, 1, 6, 6), Red, path');
    path' := DropOnto(b0, d, Stacks(3, 6, 6, 4, 1, 6, 6), Red, 3, 4, Stacks(3, 6, 6, 5, 1, 6, 6), Yellow, path');
  }

  /** Moves 34 to 36 of the drawn game each drop the drawn grid's next piece of their column. */
  lemma DrawnMoves11(b0: Board, d: Grid, path: seq<Column>) returns (path': seq<Column>)
    requires Filled(d) && d[3][5] == Yellow && d[0][3] == Red && d[4][1] == Yellow
    requires Replay(b0, path) == Ok(Board(Partial(d, Stacks(3, 6, 6, 5, 1, 6, 6)), Yellow))
    ensures Replay(b0, path') == Ok(Board(Partial(d, Stacks(4, 6, 6, 6, 2, 6, 6)), Red))
  {
    path' := DropOnto(b0, d, Stacks(3, 6, 6, 5, 1, 6, 6), Yellow, 3, 5, Stacks(3, 6, 6, 6, 1, 6, 6), Red, path);
    path' := DropOnto(b0, d, Stacks(3, 6, 6, 6, 1, 6, 6), Red, 0, 3, Stacks(4, 6, 6, 6, 1, 6, 6), Yellow, path');
    path' := DropOnto(b0, d, Stacks(4, 6, 6, 6, 1, 6, 6), Yellow, 4, 1, Stacks(4, 6, 6, 6, 2, 6, 6), Red, path');
  }

  /** Moves 37 to 39 of the drawn game each drop the drawn grid's next piece of their column. */
  lemma DrawnMoves12(b0: Board, d: Grid, path: seq<Column>) returns (path': seq<Column>)
    requires Filled(d) && d[4][2] == Red && d[0][4] == Yellow && d[4][3] == Red
    requires Replay(b0, path) == Ok(Board(Partial(d, Stacks(4, 6, 6, 6, 2, 6, 6)), Red))
    ensures Replay(b0, path') == Ok(Board(Partial(d, Stacks(5, 6, 6, 6, 4, 6, 6)), Yellow))
  {
    path' := DropOnto(b0, d, Stacks(4, 6, 6, 6, 2, 6, 6), Red, 4, 2, Stacks(4, 6, 6, 6, 3, 6, 6), Yellow, path);
    path' := DropOnto(b0, d, Stacks(4, 6, 6, 6, 3, 6, 6), Yellow, 0, 4, Stacks(5, 6, 6, 6, 3, 6, 6), Red, path');
    path' := DropOnto(b0, d, Stacks(5, 6, 6, 6, 3, 6, 6), Red, 4, 3, Stacks(5, 6, 6, 6, 4, 6, 6), Yellow, path');
  }

  /** Moves 40 to 42 of the drawn game each drop the drawn grid's next piece of their column. */
  lemma DrawnMoves13(b0: Board, d: Grid, path: seq<Column>) returns (path': seq<Column>)
    requires Filled(d) && d[4][4] == Yellow && d[0][5] == Red && d[4][5] == Yellow
    requires Replay(b0, path) == Ok(Board(Partial(d, Stacks(5, 6, 6, 6, 4, 6, 6)), Yellow))
    ensures Replay(b0, path') == Ok(Board(Partial(d, Stacks(6, 6, 6, 6, 6, 6, 6)), Red))
  {
    path' := DropOnto(b0, d, Stacks(5, 6, 6, 6, 4, 6, 6), Yellow, 4, 4, Stacks(5, 6, 6, 6, 5, 6, 6), Red, path);
    path' := DropOnto(b0, d, Stacks(5, 6, 6, 6, 5, 6, 6), Red, 0, 5, Stacks(6, 6, 6, 6, 5, 6, 6), Yellow, path');
    path' := DropOnto(b0, d, Stacks(6, 6, 6, 6, 5, 6, 6), Yellow, 4, 5, Stacks(6, 6, 6, 6, 6, 6, 6), Red, path');
  }

  /**
   * The drawn grid arises in play: 42 legal moves from the empty board, Red first
   * and alternating, fill it, leaving Red to move.
   */
  lemma DrawnGridReachable(d: Grid)
    requires d == DrawnGrid()
    ensures Reachable(Initial(), Board(d, Red))
  {
    DrawnGridFilled(d);
    DrawnGridStart(d);
    var path := DrawnMoves0(Initial(), d, []);
    path := DrawnMoves1(Initial(), d, path);
    path := DrawnMoves2(Initial(), d, path);
    path := DrawnMoves3(Initial(), d, path);
    path := DrawnMoves4(Initial(), d, path);
    path := DrawnMoves5(Initial(), d, path);
    path := DrawnMoves6(Initial(), d, path);
    path := DrawnMoves7(Initial(), d, path);
    path := DrawnMoves8(Initial(), d, path);
    path := DrawnMoves9(Initial(), d, path);
    path := DrawnMoves10(Initial(), d, path);
    path := DrawnMoves11(Initial(), d, path);
    path := DrawnMoves12(Initial(), d, path);
    path := DrawnMoves13(Initial(), d, path);
    DrawnGridEnd(d);
    assert Leads(Initial(), path, Board(d, Red));
  }

  lemma DrawnGridFilled(d: Grid)
    requires d == DrawnGrid()
    ensures Filled(d)
  {
  }

  /** Before any move, the drawn grid's partial board is the empty board, Red to move. */
  lemma DrawnGridStart(d: Grid)
    ensures Replay(Initial(), []) == Ok(Board(Partial(d, Stacks(0, 0, 0, 0, 0, 0, 0)), Red))
  {
    forall c: Column, r: Row
      ensures Partial(d, Stacks(0, 0, 0, 0, 0, 0, 0))[c][r] == Initial().grid[c][r]
    {
      PartialAt(d, Stacks(0, 0, 0, 0, 0, 0, 0), c, r);
    }
    GridsEqual(Partial(d, Stacks(0, 0, 0, 0, 0, 0, 0)), Initial().grid);
  }

  /** After all 42 moves, the partial board is the whole grid. */
  lemma DrawnGridEnd(d: Grid)
    ensures Partial(d, Stacks(6, 6, 6, 6, 6, 6, 6)) == d
  {
    forall c: Column, r: Row
      ensures Partial(d, Stacks(6, 6, 6, 6, 6, 6, 6))[c][r] == d[c][r]
    {
      PartialAt(d, Stacks(6, 6, 6, 6, 6, 6, 6), c, r);
    }
    GridsEqual(Partial(d, Stacks(6, 6, 6, 6, 6, 6, 6)), d);
  }

  /**
   * A game that ends without a winner had no winner at any point before: a line,
   * once made, would still be there at the end.
   */
  lemma NoWinnerOnTheWay(b: Board, path: seq<Column>, i: nat)
    requires Replay(b, path).Ok? && Winner(Replay(b, path).value.grid) == None && i <= |path|
    ensures Replay(b, path[..i]).Ok? && Winner(Replay(b, path[..i]).value.grid) == None
  {
    assert path == path[..i] + path[i..];
    ReplayAppend(b, path[..i], path[i..]);
    var mid := Replay(b, path[..i]).value;
    if Winner(mid.grid).Some? {
      WinnerSound(mid.grid);
      ReplayKeepsLines(mid, path[i..], Winner(mid.grid).value);
      WinnerComplete(Replay(b, path).value.grid, Winner(mid.grid).value);
    }
  }

  /**
   * There is a game from the empty board in which `winner` never reports a colour
   * and which ends on a full board where no column is legal.
   */
  lemma DrawnGameExists() returns (path: seq<Column>)
    ensures Replay(Initial(), path).Ok?
    ensures forall i :: 0 <= i <= |path| ==> Replay(Initial(), path[..i]).Ok? && Winner(Replay(Initial(), path[..i]).value.grid) == None
    ensures AvailableMoves(Replay(Initial(), path).value) == []
  {
    var d := DrawnGrid();
    DrawnGridReachable(d);
    path :| Leads(Initial(), path, Board(d, Red));
    DrawnBoardIsStuck(d);
    forall i | 0 <= i <= |path|
      ensures Replay(Initial(), path[..i]).Ok? && Winner(Replay(Initial(), path[..i]).value.grid) == None
    {
      NoWinnerOnTheWay(Initial(), path, i);
    }
  }

  // ---------------------------------------------------------------------------
  // The mutable board

  /** `State`: the cells in a 7 x 6 array updated in place, and the side to move. */
  class State {
    var data: array2<Cell>
    var player: Cell

    /** The array has the board's shape and the side to move is Red or Yellow. */
    ghost predicate Valid()
      reads this
    {
      data.Length0 == Columns && data.Length1 == Rows && player != Empty
    }

    /** The board this object currently holds. */
    function Value(): Board
      reads this, data
      requires Valid()
    {
      var d := data;
      Board(seq(Columns, c requires 0 <= c < Columns reads d =>
                  seq(Rows, r requires 0 <= r < Rows reads d => d[c, r])),
            player)
    }

    /** `State()`: the empty board with Red to move. */
    constructor ()
      ensures Valid() && fresh(data) && Value() == Initial()
    {
      data := new Cell[Columns, Rows]((c, r) => Empty);
      player := Red;
      new;
      assert Value().grid == Initial().grid by {
        forall c | 0 <= c < Columns ensures Value().grid[c] == Initial().grid[c] { }
      }
    }

    /** A `State` holding its own copy of the board value `b`. */
    constructor FromBoard(b: Board)
      requires b.player != Empty
      ensures Valid() && fresh(data) && Value() == b
    {
      data := new Cell[Columns, Rows]((c, r) requires 0 <= c < Columns && 0 <= r < Rows => b.grid[c][r]);
      player := b.player;
      new;
      assert Value().grid == b.grid by {
        forall c | 0 <= c < Columns ensures Value().grid[c] == b.grid[c] { }
      }
    }

    /**
     * `State.move(col)`: drops the mover's piece into the lowest Empty row of `col`
     * and flips the turn, or raises (changing nothing) when the column is full.
     */
    method Move(col: Column) returns (r: Result<()>)
      requires Valid()
      modifies data, this`player
      ensures Valid()
      ensures match old(Play(Value(), col))
        case Ok(b) => r == Ok(()) && Value() == b
        case Err(e) => r == Err(e) && Value() == old(Value())
    {
      var free := FreeRows(Value().grid, col);
      if free == [] {
        return Err(FullColumn(col));
      }
      var row := free[0];
      ghost var before := Value();
      data[col, row] := player;
      player := Flip(player);
      r := Ok(());
      assert Value().grid == Put(before.grid, col, row, before.player) by {
        forall c | 0 <= c < Columns
          ensures Value().grid[c] == Put(before.grid, col, row, before.player)[c]
        { }
      }
    }

    /** `State.copy()`: a new object with its own array holding the same cells and player. */
    method Copy() returns (s: State)
      requires Valid()
      ensures fresh(s) && fresh(s.data) && s.Valid() && s.Value() == Value()
    {
      s := new State();
      var d := data;
      s.data := new Cell[Columns, Rows]((c, r) reads d requires 0 <= c < d.Length0 && 0 <= r < d.Length1 => d[c, r]);
      s.player := player;
      assert s.Value().grid == Value().grid by {
        forall c | 0 <= c < Columns ensures s.Value().grid[c] == Value().grid[c] { }
      }
    }
  }

  /** A move on a copy takes effect on the copy only; the original keeps its board. */
  method MoveOnCopy(original: State, col: Column) returns (copy: State)
    requires original.Valid()
    ensures copy != original && copy.Valid()
    ensures copy.Value() == match Play(original.Value(), col) case Ok(b) => b case Err(_) => original.Value()
  {
    copy := original.Copy();
    var _ := copy.Move(col);
  }

  // ---------------------------------------------------------------------------
  // The game tree and the default player

  /** `connect4.Node`: a game-tree position owning a private copy of its board; `children` is None until expanded. */
  class Node {
    const parent: Node?
    const state: Board
    var children: Option<seq<Node>>

    /** `Node(parent, state)`: stores a copy of `state`, with no children generated yet. */
    constructor (parent: Node?, state: Board)
      ensures this.parent == parent && this.state == state && children == None
    {
      this.parent := parent;
      this.state := state;
      children := None;
    }

    /**
     * `Node.expand`: replaces `children`, even when already generated, by fresh
     * nodes, one per legal column in ascending order, each holding the board after
     * that move and pointing back to this node.
     */
    method Expand()
      requires state.player != Empty
      modifies this`children
      ensures children.Some? && |children.value| == |AvailableMoves(state)|
      ensures forall i :: 0 <= i < |children.value| ==>
                fresh(children.value[i]) && children.value[i].parent == this &&
                children.value[i].children == None &&
                Play(state, AvailableMoves(state)[i]) == Ok(children.value[i].state)
    {
      children := Some([]);
      var moves := AvailableMoves(state);
      for i := 0 to |moves|
        invariant children.Some? && |children.value| == i
        invariant forall k :: 0 <= k < i ==>
                    fresh(children.value[k]) && children.value[k].parent == this &&
                    children.value[k].children == None &&
                    Play(state, moves[k]) == Ok(children.value[k].state)
      {
        var node := NewChild(this, moves[i]);
        children := Some(children.value + [node]);
      }
    }
  }

  /** One step of `Node.expand`'s loop: copy the board, play `col` on the copy, wrap it in a fresh node. */
  method NewChild(parent: Node, col: Column) returns (node: Node)
    requires parent.state.player != Empty && col in AvailableMoves(parent.state)
    ensures fresh(node) && node.parent == parent && node.children == None
    ensures Play(parent.state, col) == Ok(node.state)
  {
    var copy := new State.FromBoard(parent.state);
    AvailableMovesArePlayable(parent.state, col);
    var _ := copy.Move(col);
    node := new Node(parent, copy.Value());
  }

  /** `Player.move`: the lowest legal column; on a full board the empty list is indexed and raises. */
  function DefaultMove(b: Board): (r: Result<Column>)
    ensures r.Err? <==> forall c: Column :: Play(b, c).Err?
    ensures r.Ok? ==> Play(b, r.value).Ok? && forall c: Column :: c < r.value ==> Play(b, c).Err?
  {
    var moves := AvailableMoves(b);
    if moves == [] then Err(EmptyChoice)
    else assert Play(b, moves[0]).Ok?; Ok(moves[0])
  }
}
