/** The engine's move generator (services/ai/MoveGenerator.ts): all
    pseudo-legal moves of a side, the capture-first ordering, and making and
    unmaking a move in place. */
module MoveGen {
  import opened Types
  import opened GameLogic

  // ---------------------------------------------------------------------
  // generateMoves
  // ---------------------------------------------------------------------

  function MovesFrom(from: Pos, tos: seq<Pos>): (ms: seq<Move>)
    ensures |ms| == |tos|
    ensures forall i | 0 <= i < |tos| :: ms[i] == Move(from, tos[i])
  {
    seq(|tos|, i requires 0 <= i < |tos| => Move(from, tos[i]))
  }

  predicate IsTurnPiece(g: Grid, turn: Color, r: int, c: int)
    requires IsValidPos(r, c)
  {
    g[r][c].Some? && g[r][c].value.color == turn
  }

  /** The moves contributed by cell (r, c): one per destination of its piece
      when that piece belongs to the side to move. */
  function CellMoves(g: Grid, turn: Color, r: int, c: int): seq<Move>
    requires IsValidPos(r, c)
  {
    if IsTurnPiece(g, turn, r, c) then MovesFrom(Pos(r, c), ValidMoves(g, g[r][c].value)) else []
  }

  /** The per-cell move lists of a board, as a function of the coordinates
      (empty off the board). */
  function CellFn(g: Grid, turn: Color): (int, int) -> seq<Move> {
    (r: int, c: int) => if IsValidPos(r, c) then CellMoves(g, turn, r, c) else []
  }

  /** The lists of cells 0 .. c-1 of row r, concatenated. */
  function RowMoves(f: (int, int) -> seq<Move>, r: int, c: nat): seq<Move>
    decreases c
  {
    if c == 0 then [] else RowMoves(f, r, c - 1) + f(r, c - 1)
  }

  /** The lists of rows 0 .. r-1 of width w, each row left to right. */
  function BoardMoves(f: (int, int) -> seq<Move>, r: nat, w: nat): seq<Move>
    decreases r
  {
    if r == 0 then [] else BoardMoves(f, r - 1, w) + RowMoves(f, r - 1, w)
  }

  /** `generateMoves`: the moves of every piece of `turn`, cell by cell in
      row-major order. */
  function GenerateMoves(g: Grid, turn: Color): seq<Move> {
    BoardMoves(CellFn(g, turn), |g|, |g[0]|)
  }

  /** The moves of the piece on (r, c), when it belongs to `turn`. */
  method CellMovesOn(board: array2<Cell>, turn: Color, r: int, c: int) returns (moves: seq<Move>)
    requires IsBoard(board) && IsValidPos(r, c)
    ensures moves == CellFn(Snapshot(board), turn)(r, c)
  {
    moves := [];
    var piece := board[r, c];
    if piece.Some? && piece.value.color == turn {
      var validPos := GetValidMoves(board, piece.value);
      var i := 0;
      while i < |validPos|
        invariant 0 <= i <= |validPos|
        invariant moves == MovesFrom(Pos(r, c), validPos[..i])
      {
        assert MovesFrom(Pos(r, c), validPos[..i + 1]) == MovesFrom(Pos(r, c), validPos[..i]) + [Move(Pos(r, c), validPos[i])];
        moves := moves + [Move(Pos(r, c), validPos[i])];
        i := i + 1;
      }
      assert validPos[..i] == validPos;
    }
  }

  /** The moves of row r, left to right. */
  method RowMovesOn(board: array2<Cell>, turn: Color, r: int) returns (moves: seq<Move>)
    requires IsBoard(board) && 0 <= r < ROWS
    ensures moves == RowMoves(CellFn(Snapshot(board), turn), r, |Snapshot(board)[0]|)
  {
    moves := [];
    var c := 0;
    while c < 9
      invariant 0 <= c <= COLS
      invariant moves == RowMoves(CellFn(Snapshot(board), turn), r, c)
    {
      var cell := CellMovesOn(board, turn, r, c);
      moves := moves + cell;
      c := c + 1;
    }
  }

  method GenerateMovesOn(board: array2<Cell>, turn: Color) returns (moves: seq<Move>)
    requires IsBoard(board)
    ensures moves == GenerateMoves(Snapshot(board), turn)
  {
    moves := [];
    var r := 0;
    while r < 10
      invariant 0 <= r <= ROWS
      invariant moves == BoardMoves(CellFn(Snapshot(board), turn), r, |Snapshot(board)[0]|)
    {
      var row := RowMovesOn(board, turn, r);
      moves := moves + row;
      r := r + 1;
    }
  }

  /** Every move in the list of cell (r, c) starts on (r, c). */
  ghost predicate Anchored(f: (int, int) -> seq<Move>) {
    forall r, c, m | m in f(r, c) :: m.from == Pos(r, c)
  }

  lemma {:induction false} RowMovesMember(f: (int, int) -> seq<Move>, r: int, c: nat, m: Move)
    requires Anchored(f)
    ensures m in RowMoves(f, r, c) <==> m.from.r == r && 0 <= m.from.c < c && m in f(r, m.from.c)
    decreases c
  {
    if c > 0 {
      RowMovesMember(f, r, c - 1, m);
    }
  }

  lemma {:induction false} BoardMovesMember(f: (int, int) -> seq<Move>, r: nat, w: nat, m: Move)
    requires Anchored(f)
    ensures m in BoardMoves(f, r, w) <==> 0 <= m.from.r < r && 0 <= m.from.c < w && m in f(m.from.r, m.from.c)
    decreases r
  {
    if r > 0 {
      BoardMovesMember(f, r - 1, w, m);
      RowMovesMember(f, r - 1, w, m);
    }
  }

  /** `m` starts on a piece of `turn` and ends on one of its destinations. */
  predicate Generated(g: Grid, turn: Color, m: Move) {
    OnBoard(m.from) && IsTurnPiece(g, turn, m.from.r, m.from.c)
    && m.to in ValidMoves(g, At(g, m.from).value)
  }

  lemma CellMovesMember(g: Grid, turn: Color, r: int, c: int, m: Move)
    requires IsValidPos(r, c)
    ensures m in CellMoves(g, turn, r, c) <==> m.from == Pos(r, c) && Generated(g, turn, m)
  {
  }

  lemma CellFnAnchored(g: Grid, turn: Color)
    ensures Anchored(CellFn(g, turn))
  {
    forall r, c, m | m in CellFn(g, turn)(r, c) ensures m.from == Pos(r, c) {
      CellMovesMember(g, turn, r, c, m);
    }
  }

  /** A move is generated exactly when it starts on a piece of the side to
      move and ends on one of that piece's destinations. */
  lemma GenerateMovesMember(g: Grid, turn: Color, m: Move)
    ensures m in GenerateMoves(g, turn) <==> Generated(g, turn, m)
  {
    CellFnAnchored(g, turn);
    BoardMovesMember(CellFn(g, turn), |g|, |g[0]|, m);
    if OnBoard(m.from) {
      CellMovesMember(g, turn, m.from.r, m.from.c, m);
    }
  }

  // ---------------------------------------------------------------------
  // makeMove / unmakeMove
  // ---------------------------------------------------------------------

  /** `makeMove` on a grid: the piece on `from`, now recording `to`, lands on
      `to` (replacing whatever was there) and `from` is emptied. With no
      piece on `from` nothing changes. */
  function ApplyMove(g: Grid, m: Move): Grid
    requires OnBoard(m.from) && OnBoard(m.to)
  {
    var piece := At(g, m.from);
    if piece.None? then g
    else SetCell(SetCell(g, m.to, Some(piece.value.(pos := m.to))), m.from, None)
  }

  /** `unmakeMove` on a grid: the piece on `to`, now recording `from`, goes
      back to `from` and `to` receives `captured`. With no piece on `to`
      nothing changes. */
  function UnapplyMove(g: Grid, m: Move, captured: Cell): Grid
    requires OnBoard(m.from) && OnBoard(m.to)
  {
    var piece := At(g, m.to);
    if piece.None? then g
    else SetCell(SetCell(g, m.from, Some(piece.value.(pos := m.from))), m.to, captured)
  }

  /** `makeMove`: returns the captured cell, or nothing when `from` is empty. */
  method MakeMove(board: array2<Cell>, move: Move) returns (captured: Cell)
    requires IsBoard(board) && OnBoard(move.from) && OnBoard(move.to)
    modifies board
    ensures Snapshot(board) == ApplyMove(old(Snapshot(board)), move)
    ensures captured == (if old(board[move.from.r, move.from.c]).None? then None else old(board[move.to.r, move.to.c]))
  {
    ghost var g := Snapshot(board);
    var piece := board[move.from.r, move.from.c];
    captured := board[move.to.r, move.to.c];
    if piece.None? {
      return None;
    }
    var moved := piece.value.(pos := Pos(move.to.r, move.to.c));
    board[move.to.r, move.to.c] := Some(moved);
    board[move.from.r, move.from.c] := None;
    GridExt(Snapshot(board), ApplyMove(g, move));
  }

  /** `unmakeMove`. */
  method UnmakeMove(board: array2<Cell>, move: Move, captured: Cell)
    requires IsBoard(board) && OnBoard(move.from) && OnBoard(move.to)
    modifies board
    ensures Snapshot(board) == UnapplyMove(old(Snapshot(board)), move, captured)
  {
    ghost var g := Snapshot(board);
    var piece := board[move.to.r, move.to.c];
    if piece.None? {
      return;
    }
    var restored := piece.value.(pos := Pos(move.from.r, move.from.c));
    board[move.from.r, move.from.c] := Some(restored);
    board[move.to.r, move.to.c] := captured;
    GridExt(Snapshot(board), UnapplyMove(g, move, captured));
  }

  /** Making a move changes the `from` and `to` cells only. */
  lemma ApplyMoveFrame(g: Grid, m: Move, q: Pos)
    requires OnBoard(m.from) && OnBoard(m.to) && OnBoard(q) && q != m.from && q != m.to
    ensures At(ApplyMove(g, m), q) == At(g, q)
  {
  }

  /** On a consistent board, unmaking a move with the cell it captured
      restores the board exactly. */
  lemma MakeUnmakeRoundTrip(g: Grid, m: Move)
    requires OnBoard(m.from) && OnBoard(m.to) && m.from != m.to
    requires Consistent(g) && At(g, m.from).Some?
    ensures UnapplyMove(ApplyMove(g, m), m, At(g, m.to)) == g
  {
    var h := UnapplyMove(ApplyMove(g, m), m, At(g, m.to));
    forall r, c | IsValidPos(r, c) ensures h[r][c] == g[r][c] {
      var q := Pos(r, c);
      assert At(h, q) == At(g, q);
    }
    GridExt(h, g);
  }

  /** Making a move from a piece keeps every piece's recorded position right. */
  lemma ApplyMoveConsistent(g: Grid, m: Move)
    requires OnBoard(m.from) && OnBoard(m.to) && m.from != m.to && Consistent(g)
    ensures Consistent(ApplyMove(g, m))
  {
    var h := ApplyMove(g, m);
    forall r, c | IsValidPos(r, c) && h[r][c].Some? ensures h[r][c].value.pos == Pos(r, c) {
      assert At(h, Pos(r, c)) == h[r][c];
    }
  }

  /** A move from an empty cell changes nothing and captures nothing. */
  lemma ApplyMoveFromEmpty(g: Grid, m: Move)
    requires OnBoard(m.from) && OnBoard(m.to) && At(g, m.from).None?
    ensures ApplyMove(g, m) == g
  {
  }

  // ---------------------------------------------------------------------
  // Piece count
  // ---------------------------------------------------------------------

  function Occupied(cell: Cell): nat {
    if cell.Some? then 1 else 0
  }

  function RowCount(cells: seq<Cell>): nat
    decreases |cells|
  {
    if cells == [] then 0 else Occupied(cells[0]) + RowCount(cells[1..])
  }

  function RowsCount(rows: seq<seq<Cell>>): nat
    decreases |rows|
  {
    if rows == [] then 0 else RowCount(rows[0]) + RowsCount(rows[1..])
  }

  /** Number of pieces on the board. */
  function PieceCount(g: Grid): nat {
    RowsCount(g)
  }

  lemma {:induction false} RowCountUpdate(cells: seq<Cell>, c: int, v: Cell)
    requires 0 <= c < |cells|
    ensures RowCount(cells[c := v]) + Occupied(cells[c]) == RowCount(cells) + Occupied(v)
    decreases |cells|
  {
    if c > 0 {
      RowCountUpdate(cells[1..], c - 1, v);
      assert cells[c := v][1..] == cells[1..][c - 1 := v];
    } else {
      assert cells[c := v][1..] == cells[1..];
    }
  }

  lemma {:induction false} RowsCountUpdate(rows: seq<seq<Cell>>, r: int, row: seq<Cell>)
    requires 0 <= r < |rows|
    ensures RowsCount(rows[r := row]) + RowCount(rows[r]) == RowsCount(rows) + RowCount(row)
    decreases |rows|
  {
    if r > 0 {
      RowsCountUpdate(rows[1..], r - 1, row);
      assert rows[r := row][1..] == rows[1..][r - 1 := row];
    } else {
      assert rows[r := row][1..] == rows[1..];
    }
  }

  lemma SetCellCount(g: Grid, p: Pos, v: Cell)
    requires OnBoard(p)
    ensures PieceCount(SetCell(g, p, v)) + Occupied(At(g, p)) == PieceCount(g) + Occupied(v)
  {
    RowCountUpdate(g[p.r], p.c, v);
    RowsCountUpdate(g, p.r, g[p.r][p.c := v]);
  }

  /** A move from a piece keeps the piece count, less one for a capture. */
  lemma ApplyMoveCount(g: Grid, m: Move)
    requires OnBoard(m.from) && OnBoard(m.to) && m.from != m.to && At(g, m.from).Some?
    ensures PieceCount(ApplyMove(g, m)) == PieceCount(g) - Occupied(At(g, m.to))
  {
    var piece := At(g, m.from).value;
    var h := SetCell(g, m.to, Some(piece.(pos := m.to)));
    SetCellCount(g, m.to, Some(piece.(pos := m.to)));
    SetCellCount(h, m.from, None);
  }

  // ---------------------------------------------------------------------
  // sortMoves / getMoveScore
  // ---------------------------------------------------------------------

  /** The victim values used for move ordering. */
  function OrderValue(k: PieceType): int {
    match k
    case General => 10000
    case Chariot => 500
    case Cannon => 450
    case Horse => 300
    case Advisor => 200
    case Elephant => 200
    case Soldier => 100
  }

  /** `getMoveScore`: ten times the value of the piece on the destination,
      zero for a quiet move. */
  function MoveScore(g: Grid, m: Move): (score: int)
    requires OnBoard(m.to)
    ensures At(g, m.to).None? ==> score == 0
    ensures At(g, m.to).Some? ==> score >= 1000
  {
    var target := At(g, m.to);
    if target.Some? then OrderValue(target.value.kind) * 10 else 0
  }

  ghost predicate SortedBy(s: seq<Move>, key: Move -> int) {
    forall i, j | 0 <= i < j < |s| :: key(s[i]) >= key(s[j])
  }

  /** While inserting s[j] (which started at i): the elements up to i other
      than s[j] are in order, and s[j] is no larger than anything before it
      and no smaller than anything after it. */
  ghost predicate Inserting(s: seq<Move>, key: Move -> int, i: int, j: int) {
    0 <= j <= i < |s|
    && (forall k, l | 0 <= k < l <= i && l != j && k != j :: key(s[k]) >= key(s[l]))
    && (forall k | j < k <= i :: key(s[j]) >= key(s[k]))
    && (forall k, l | 0 <= k < j && j < l <= i :: key(s[k]) >= key(s[l]))
  }

  lemma InsertStart(s: seq<Move>, key: Move -> int, i: int)
    requires 0 <= i < |s| && SortedBy(s[..i], key)
    ensures Inserting(s, key, i, i)
  {
    assert forall k | 0 <= k < i :: s[..i][k] == s[k];
  }

  lemma InsertStep(s: seq<Move>, key: Move -> int, i: int, j: int)
    requires Inserting(s, key, i, j) && 0 < j && key(s[j - 1]) < key(s[j])
    ensures Inserting(s[j - 1 := s[j]][j := s[j - 1]], key, i, j - 1)
  {
  }

  lemma InsertDone(s: seq<Move>, key: Move -> int, i: int, j: int)
    requires Inserting(s, key, i, j) && (j == 0 || key(s[j - 1]) >= key(s[j]))
    ensures SortedBy(s[..i + 1], key)
  {
    forall k, l | 0 <= k < l <= i ensures key(s[k]) >= key(s[l]) {
      if l == j && k < j - 1 {
        assert key(s[k]) >= key(s[j - 1]);
      }
    }
  }

  lemma SwapPreserves(s: seq<Move>, x: int, y: int)
    requires 0 <= x < y < |s|
    ensures multiset(s[x := s[y]][y := s[x]]) == multiset(s)
  {
  }

  /** Moves the element at `i` left past every element of smaller key,
      given that `a[..i]` is already in order. */
  method InsertAt(a: array<Move>, i: int, key: Move -> int)
    requires 0 <= i < a.Length && SortedBy(a[..i], key)
    modifies a
    ensures SortedBy(a[..i + 1], key)
    ensures a[i + 1..] == old(a[i + 1..])
    ensures multiset(a[..]) == multiset(old(a[..]))
  {
    InsertStart(a[..], key, i);
    var j := i;
    while j > 0 && key(a[j - 1]) < key(a[j])
      invariant Inserting(a[..], key, i, j)
      invariant a[i + 1..] == old(a[i + 1..])
      invariant multiset(a[..]) == multiset(old(a[..]))
    {
      ghost var s := a[..];
      InsertStep(s, key, i, j);
      SwapPreserves(s, j - 1, j);
      a[j - 1], a[j] := a[j], a[j - 1];
      assert a[..] == s[j - 1 := s[j]][j := s[j - 1]];
      j := j - 1;
    }
    InsertDone(a[..], key, i, j);
  }

  /** The language's stable sort with a descending numeric comparator,
      written out as insertion sort by adjacent swaps. */
  method SortByKey(a: array<Move>, key: Move -> int)
    modifies a
    ensures SortedBy(a[..], key)
    ensures multiset(a[..]) == multiset(old(a[..]))
  {
    var i := 0;
    while i < a.Length
      invariant 0 <= i <= a.Length
      invariant SortedBy(a[..i], key)
      invariant multiset(a[..]) == multiset(old(a[..]))
    {
      InsertAt(a, i, key);
      i := i + 1;
    }
    assert a[..i] == a[..];
  }

  predicate TargetsOnBoard(ms: seq<Move>) {
    forall i | 0 <= i < |ms| :: OnBoard(ms[i].to)
  }

  function ScoreKey(g: Grid): Move -> int {
    (m: Move) => if OnBoard(m.to) then MoveScore(g, m) else 0
  }

  /** `sortMoves`: the same moves, highest `getMoveScore` first. */
  method SortMoves(board: array2<Cell>, moves: array<Move>)
    requires IsBoard(board) && TargetsOnBoard(moves[..])
    modifies moves
    ensures SortedBy(moves[..], ScoreKey(Snapshot(board)))
    ensures multiset(moves[..]) == multiset(old(moves[..]))
  {
    var g := Snapshot(board);
    SortByKey(moves, ScoreKey(g));
  }

  /** After `sortMoves` every capture comes before every quiet move, and
      captures of more valuable pieces come first. */
  lemma CapturesFirst(g: Grid, ms: seq<Move>, i: int, j: int)
    requires TargetsOnBoard(ms) && SortedBy(ms, ScoreKey(g))
    requires 0 <= i < j < |ms|
    ensures At(g, ms[j].to).Some? ==> At(g, ms[i].to).Some?
    ensures At(g, ms[i].to).Some? && At(g, ms[j].to).Some? ==>
      OrderValue(At(g, ms[i].to).value.kind) >= OrderValue(At(g, ms[j].to).value.kind)
  {
    assert ScoreKey(g)(ms[i]) >= ScoreKey(g)(ms[j]);
  }
}
