/** The static evaluator (services/ai/Evaluation.ts): material values, the
    seven piece-square tables, and `evaluateBoard`, which adds up, over every
    occupied cell, the piece's value plus its table entry, positive for Red and
    negative for Black. Black pieces read their table with the row mirrored. */
module Evaluation {
  import opened Types
  import opened Setup
  import opened Fen

  // ---------------------------------------------------------------------
  // Material values and piece-square tables
  // ---------------------------------------------------------------------

  /** `VALUES`. */
  function Value(k: PieceType): int {
    match k
    case General => 10000
    case Chariot => 500
    case Cannon => 450
    case Horse => 300
    case Advisor => 200
    case Elephant => 200
    case Soldier => 100
  }

  /** The tables are written for Red, row 0 being Black's back rank. */
  const PST_SOLDIER: seq<seq<int>> := [
    [0, 0, 0, 0, 0, 0, 0, 0, 0],
    [30, 40, 55, 60, 60, 60, 55, 40, 30],
    [20, 30, 45, 50, 50, 50, 45, 30, 20],
    [10, 20, 30, 35, 35, 35, 30, 20, 10],
    [10, 20, 25, 30, 30, 30, 25, 20, 10],
    [0, 0, 0, 0, 0, 0, 0, 0, 0],
    [0, 0, 0, 0, 0, 0, 0, 0, 0],
    [0, 0, 0, 0, 0, 0, 0, 0, 0],
    [0, 0, 0, 0, 0, 0, 0, 0, 0],
    [0, 0, 0, 0, 0, 0, 0, 0, 0]
  ]

  const PST_CHARIOT: seq<seq<int>> := [
    [10, 15, 10, 10, 10, 10, 10, 15, 10],
    [10, 15, 15, 15, 15, 15, 15, 15, 10],
    [10, 15, 20, 20, 20, 20, 20, 15, 10],
    [10, 15, 20, 20, 20, 20, 20, 15, 10],
    [5, 10, 15, 15, 15, 15, 15, 10, 5],
    [5, 12, 12, 12, 12, 12, 12, 12, 5],
    [0, 5, 5, 5, 5, 5, 5, 5, 0],
    [0, 5, 5, 5, 5, 5, 5, 5, 0],
    [0, 5, 10, 10, 10, 10, 10, 5, 0],
    [-5, 5, 5, 5, 5, 5, 5, 5, -5]
  ]

  const PST_HORSE: seq<seq<int>> := [
    [0, 5, 10, 10, 10, 10, 10, 5, 0],
    [0, 5, 20, 25, 25, 25, 20, 5, 0],
    [5, 10, 25, 30, 30, 30, 25, 10, 5],
    [5, 10, 20, 25, 25, 25, 20, 10, 5],
    [5, 10, 15, 20, 20, 20, 15, 10, 5],
    [5, 8, 12, 15, 15, 15, 12, 8, 5],
    [0, 5, 5, 10, 10, 10, 5, 5, 0],
    [0, -5, 0, 5, 5, 5, 0, -5, 0],
    [-5, -10, -5, 0, 0, 0, -5, -10, -5],
    [-10, -15, -10, -5, -5, -5, -10, -15, -10]
  ]

  const PST_CANNON: seq<seq<int>> := [
    [0, 5, 10, 10, 10, 10, 10, 5, 0],
    [0, 5, 10, 10, 10, 10, 10, 5, 0],
    [5, 10, 15, 20, 20, 20, 15, 10, 5],
    [5, 10, 15, 20, 20, 20, 15, 10, 5],
    [5, 10, 15, 20, 20, 20, 15, 10, 5],
    [0, 5, 5, 5, 5, 5, 5, 5, 0],
    [0, 0, 0, 0, 0, 0, 0, 0, 0],
    [0, 5, 0, 5, 10, 5, 0, 5, 0],
    [0, 0, 0, 0, 0, 0, 0, 0, 0],
    [0, 0, 0, 0, 0, 0, 0, 0, 0]
  ]

  const PST_ADVISOR: seq<seq<int>> := [
    [0, 0, 0, 0, 0, 0, 0, 0, 0],
    [0, 0, 0, 0, 0, 0, 0, 0, 0],
    [0, 0, 0, 0, 0, 0, 0, 0, 0],
    [0, 0, 0, 0, 0, 0, 0, 0, 0],
    [0, 0, 0, 0, 0, 0, 0, 0, 0],
    [0, 0, 0, 0, 0, 0, 0, 0, 0],
    [0, 0, 0, 0, 0, 0, 0, 0, 0],
    [0, 0, 0, 5, 0, 5, 0, 0, 0],
    [0, 0, 0, 0, 10, 0, 0, 0, 0],
    [0, 0, 0, 5, 0, 5, 0, 0, 0]
  ]

  const PST_ELEPHANT: seq<seq<int>> := [
    [0, 0, 0, 0, 0, 0, 0, 0, 0],
    [0, 0, 0, 0, 0, 0, 0, 0, 0],
    [0, 0, 0, 0, 0, 0, 0, 0, 0],
    [0, 0, 0, 0, 0, 0, 0, 0, 0],
    [0, 0, 0, 0, 0, 0, 0, 0, 0],
    [0, 0, 5, 0, 0, 0, 5, 0, 0],
    [0, 0, 0, 0, 0, 0, 0, 0, 0],
    [0, 0, 0, 0, 10, 0, 0, 0, 0],
    [0, 0, 0, 0, 0, 0, 0, 0, 0],
    [0, 0, 5, 0, 0, 0, 5, 0, 0]
  ]

  const PST_GENERAL: seq<seq<int>> := [
    [0, 0, 0, 0, 0, 0, 0, 0, 0],
    [0, 0, 0, 0, 0, 0, 0, 0, 0],
    [0, 0, 0, 0, 0, 0, 0, 0, 0],
    [0, 0, 0, 0, 0, 0, 0, 0, 0],
    [0, 0, 0, 0, 0, 0, 0, 0, 0],
    [0, 0, 0, 0, 0, 0, 0, 0, 0],
    [0, 0, 0, 0, 0, 0, 0, 0, 0],
    [0, 0, 0, -5, -5, -5, 0, 0, 0],
    [0, 0, 0, 0, 5, 0, 0, 0, 0],
    [0, 0, 0, 5, 10, 5, 0, 0, 0]
  ]

  /** A 10x9 table whose entries lie in [-15, 60]. */
  predicate IsTable(t: seq<seq<int>>) {
    |t| == ROWS && forall i | 0 <= i < ROWS :: |t[i]| == COLS && forall j | 0 <= j < COLS :: -15 <= t[i][j] <= 60
  }

  lemma SoldierTableShape()
    ensures IsTable(PST_SOLDIER)
  {
  }

  lemma ChariotTableShape()
    ensures IsTable(PST_CHARIOT)
  {
  }

  lemma HorseTableShape()
    ensures IsTable(PST_HORSE)
  {
  }

  lemma CannonTableShape()
    ensures IsTable(PST_CANNON)
  {
  }

  lemma AdvisorTableShape()
    ensures IsTable(PST_ADVISOR)
  {
  }

  lemma ElephantTableShape()
    ensures IsTable(PST_ELEPHANT)
  {
  }

  lemma GeneralTableShape()
    ensures IsTable(PST_GENERAL)
  {
  }

  /** `PST_MAP`: the table of each piece kind. */
  function Pst(k: PieceType): (t: seq<seq<int>>)
    ensures IsTable(t)
  {
    match k
    case Soldier => SoldierTableShape(); PST_SOLDIER
    case Chariot => ChariotTableShape(); PST_CHARIOT
    case Horse => HorseTableShape(); PST_HORSE
    case Cannon => CannonTableShape(); PST_CANNON
    case Advisor => AdvisorTableShape(); PST_ADVISOR
    case Elephant => ElephantTableShape(); PST_ELEPHANT
    case General => GeneralTableShape(); PST_GENERAL
  }

  // ---------------------------------------------------------------------
  // evaluateBoard as a function
  // ---------------------------------------------------------------------

  /** The table entry a piece reads on cell (r, c): Red reads row r, Black
      reads the mirrored row 9 - r. */
  function PstValue(p: Piece, r: int, c: int): int
    requires IsValidPos(r, c)
  {
    if p.color == Red then Pst(p.kind)[r][c] else Pst(p.kind)[ROWS - 1 - r][c]
  }

  /** What one cell adds to the score. */
  function CellScore(cell: Cell, r: int, c: int): int
    requires IsValidPos(r, c)
  {
    match cell
    case None => 0
    case Some(p) => if p.color == Red then Value(p.kind) + PstValue(p, r, c) else -(Value(p.kind) + PstValue(p, r, c))
  }

  /** a(0) + ... + a(n - 1). */
  function SumTo(a: int -> int, n: nat): int
    decreases n
  {
    if n == 0 then 0 else SumTo(a, n - 1) + a(n - 1)
  }

  /** Row r of f, as a function of the column. */
  function RowFn(f: (int, int) -> int, r: int): int -> int {
    (c: int) => f(r, c)
  }

  /** The sum of f over cells (r, 0) .. (r, w - 1). */
  function RowSum(f: (int, int) -> int, r: int, w: nat): int {
    SumTo(RowFn(f, r), w)
  }

  /** The row sums of f, as a function of the row. */
  function RowSums(f: (int, int) -> int, w: nat): int -> int {
    (r: int) => RowSum(f, r, w)
  }

  /** The sum of f over rows 0 .. h - 1 of width w. */
  function BoardSum(f: (int, int) -> int, h: nat, w: nat): int {
    SumTo(RowSums(f, w), h)
  }

  lemma BoardSumStep(f: (int, int) -> int, r: nat, w: nat)
    ensures BoardSum(f, r + 1, w) == BoardSum(f, r, w) + RowSum(f, r, w)
  {
  }

  /** The score of every cell of g, and 0 off the board. */
  function ScoreFn(g: Grid): (int, int) -> int {
    (r: int, c: int) => if IsValidPos(r, c) then CellScore(g[r][c], r, c) else 0
  }

  /** `evaluateBoard`: positive favours Red, negative favours Black. */
  function Evaluate(g: Grid): int {
    BoardSum(ScoreFn(g), ROWS, COLS)
  }

  // ---------------------------------------------------------------------
  // The loops on the mutable board
  // ---------------------------------------------------------------------

  /** The body of the inner loop: what the piece on (r, c), if any, adds. */
  method CellScoreOn(board: array2<Cell>, r: int, c: int) returns (delta: int)
    requires IsBoard(board) && IsValidPos(r, c)
    ensures delta == ScoreFn(Snapshot(board))(r, c)
  {
    var piece := board[r, c];
    if piece.None? {
      return 0;
    }
    var p := piece.value;
    var isRed := p.color == Red;
    var val := Value(p.kind);
    var pstVal := 0;
    if isRed {
      pstVal := Pst(p.kind)[r][c];
    } else {
      pstVal := Pst(p.kind)[9 - r][c];
    }
    if isRed {
      delta := val + pstVal;
    } else {
      delta := -(val + pstVal);
    }
  }

  /** The inner `for (let c = 0; c < 9; c++)` loop over row r. */
  method RowScoreOn(board: array2<Cell>, r: int, score0: int) returns (score: int)
    requires IsBoard(board) && 0 <= r < ROWS
    ensures score == score0 + RowSum(ScoreFn(Snapshot(board)), r, COLS)
  {
    ghost var f := ScoreFn(Snapshot(board));
    score := score0;
    for c := 0 to 9
      invariant score == score0 + RowSum(f, r, c)
    {
      var delta := CellScoreOn(board, r, c);
      score := score + delta;
    }
  }

  /** `evaluateBoard(board, turn)`: the result does not depend on `turn`. */
  method EvaluateBoardOn(board: array2<Cell>, turn: Color) returns (score: int)
    requires IsBoard(board)
    ensures score == Evaluate(Snapshot(board))
  {
    ghost var f := ScoreFn(Snapshot(board));
    score := 0;
    for r := 0 to 10
      invariant score == BoardSum(f, r, COLS)
    {
      score := RowScoreOn(board, r, score);
      BoardSumStep(f, r, COLS);
    }
  }

  // ---------------------------------------------------------------------
  // Sums
  // ---------------------------------------------------------------------

  lemma {:induction false} SumCongruent(a: int -> int, b: int -> int, n: nat)
    requires forall i | 0 <= i < n :: a(i) == b(i)
    ensures SumTo(a, n) == SumTo(b, n)
    decreases n
  {
    if n > 0 {
      SumCongruent(a, b, n - 1);
    }
  }

  lemma {:induction false} SumNegate(a: int -> int, b: int -> int, n: nat)
    requires forall i | 0 <= i < n :: b(i) == -a(i)
    ensures SumTo(b, n) == -SumTo(a, n)
    decreases n
  {
    if n > 0 {
      SumNegate(a, b, n - 1);
    }
  }

  lemma {:induction false} SumDifference(a: int -> int, b: int -> int, d: int -> int, n: nat)
    requires forall i | 0 <= i < n :: d(i) == a(i) - b(i)
    ensures SumTo(d, n) == SumTo(a, n) - SumTo(b, n)
    decreases n
  {
    if n > 0 {
      SumDifference(a, b, d, n - 1);
    }
  }

  /** Two sequences of terms that differ only at index k. */
  lemma {:induction false} SumPoint(a: int -> int, b: int -> int, n: nat, k: int)
    requires 0 <= k < n
    requires forall i | 0 <= i < n && i != k :: a(i) == b(i)
    ensures SumTo(b, n) == SumTo(a, n) - a(k) + b(k)
    decreases n
  {
    if n - 1 == k {
      SumCongruent(a, b, n - 1);
    } else {
      SumPoint(a, b, n - 1, k);
    }
  }

  function Shifted(a: int -> int): int -> int {
    (j: int) => a(j + 1)
  }

  /** Peeling off the first term. */
  lemma {:induction false} SumShift(a: int -> int, n: nat)
    ensures SumTo(a, n + 1) == a(0) + SumTo(Shifted(a), n)
    decreases n
  {
    if n > 0 {
      SumShift(a, n - 1);
    }
  }

  /** Adding the terms in reverse order gives the same sum. */
  lemma {:induction false} SumReverse(a: int -> int, b: int -> int, n: nat)
    requires forall i | 0 <= i < n :: b(i) == a(n - 1 - i)
    ensures SumTo(b, n) == SumTo(a, n)
    decreases n
  {
    if n > 0 {
      var a' := Shifted(a);
      forall i | 0 <= i < n - 1
        ensures b(i) == a'(n - 2 - i)
      {
      }
      SumReverse(a', b, n - 1);
      SumShift(a, n - 1);
    }
  }

  // ---------------------------------------------------------------------
  // What the score is
  // ---------------------------------------------------------------------

  /** Sums over the board agree for functions that agree on the board. */
  lemma BoardCongruent(f: (int, int) -> int, f': (int, int) -> int, h: nat, w: nat)
    requires forall r, c | 0 <= r < h && 0 <= c < w :: f(r, c) == f'(r, c)
    ensures BoardSum(f, h, w) == BoardSum(f', h, w)
  {
    forall r | 0 <= r < h
      ensures RowSums(f, w)(r) == RowSums(f', w)(r)
    {
      SumCongruent(RowFn(f, r), RowFn(f', r), w);
    }
    SumCongruent(RowSums(f, w), RowSums(f', w), h);
  }

  /** What the Red pieces contribute: value plus table entry at (r, c). */
  function RedFn(g: Grid): (int, int) -> int {
    (r: int, c: int) =>
      if IsValidPos(r, c) && g[r][c].Some? && g[r][c].value.color == Red
      then Value(g[r][c].value.kind) + Pst(g[r][c].value.kind)[r][c]
      else 0
  }

  /** What the Black pieces contribute: value plus table entry at (9 - r, c). */
  function BlackFn(g: Grid): (int, int) -> int {
    (r: int, c: int) =>
      if IsValidPos(r, c) && g[r][c].Some? && g[r][c].value.color == Black
      then Value(g[r][c].value.kind) + Pst(g[r][c].value.kind)[ROWS - 1 - r][c]
      else 0
  }

  /** The score is the Red total minus the Black total. */
  lemma ScoreIsRedMinusBlack(g: Grid)
    ensures Evaluate(g) == BoardSum(RedFn(g), ROWS, COLS) - BoardSum(BlackFn(g), ROWS, COLS)
  {
    var f, a, b := ScoreFn(g), RedFn(g), BlackFn(g);
    forall r | 0 <= r < ROWS
      ensures RowSums(f, COLS)(r) == RowSums(a, COLS)(r) - RowSums(b, COLS)(r)
    {
      SumDifference(RowFn(a, r), RowFn(b, r), RowFn(f, r), COLS);
    }
    SumDifference(RowSums(a, COLS), RowSums(b, COLS), RowSums(f, COLS), ROWS);
  }

  lemma {:induction false} SumZero(a: int -> int, n: nat)
    requires forall i | 0 <= i < n :: a(i) == 0
    ensures SumTo(a, n) == 0
    decreases n
  {
    if n > 0 {
      SumZero(a, n - 1);
    }
  }

  /** A board without pieces scores 0. */
  lemma EmptyScoresZero(g: Grid)
    requires forall r, c | IsValidPos(r, c) :: g[r][c].None?
    ensures Evaluate(g) == 0
  {
    var f := ScoreFn(g);
    forall r | 0 <= r < ROWS
      ensures RowSums(f, COLS)(r) == 0
    {
      SumZero(RowFn(f, r), COLS);
    }
    SumZero(RowSums(f, COLS), ROWS);
  }

  /** The largest score a single cell can contribute: a General (10000) on
      the best square of its table (60). */
  const CELL_BOUND := 10060

  /** The score of any position lies within 90 cells times CELL_BOUND. */
  const EVAL_BOUND := 905400

  lemma CellScoreBounded(cell: Cell, r: int, c: int)
    requires IsValidPos(r, c)
    ensures -CELL_BOUND <= CellScore(cell, r, c) <= CELL_BOUND
  {
    if cell.Some? {
      assert -15 <= PstValue(cell.value, r, c) <= 60;
    }
  }

  /** n terms within [-b, b] sum to a value within [-n b, n b]. */
  lemma {:induction false} SumBounded(a: int -> int, n: nat, b: int)
    requires forall i | 0 <= i < n :: -b <= a(i) <= b
    ensures -(n * b) <= SumTo(a, n) <= n * b
    decreases n
  {
    if n > 0 {
      SumBounded(a, n - 1, b);
      assert (n - 1) * b + b == n * b;
    }
  }

  /** Every position scores within [-EVAL_BOUND, EVAL_BOUND]. */
  lemma EvaluateBounded(g: Grid)
    ensures -EVAL_BOUND <= Evaluate(g) <= EVAL_BOUND
  {
    var f := ScoreFn(g);
    forall r | 0 <= r < ROWS
      ensures -(COLS * CELL_BOUND) <= RowSums(f, COLS)(r) <= COLS * CELL_BOUND
    {
      forall c | 0 <= c < COLS
        ensures -CELL_BOUND <= RowFn(f, r)(c) <= CELL_BOUND
      {
        CellScoreBounded(g[r][c], r, c);
      }
      SumBounded(RowFn(f, r), COLS, CELL_BOUND);
    }
    SumBounded(RowSums(f, COLS), ROWS, COLS * CELL_BOUND);
  }

  /** A Red piece always adds, a Black piece always subtracts. */
  lemma CellScoreSign(cell: Cell, r: int, c: int)
    requires IsValidPos(r, c) && cell.Some?
    ensures cell.value.color == Red ==> CellScore(cell, r, c) >= 85
    ensures cell.value.color == Black ==> CellScore(cell, r, c) <= -85
  {
    assert -15 <= PstValue(cell.value, r, c);
  }

  /** Changing one cell changes the score by exactly that cell's difference. */
  lemma SetCellScore(g: Grid, p: Pos, v: Cell)
    requires OnBoard(p)
    ensures Evaluate(SetCell(g, p, v)) == Evaluate(g) - CellScore(At(g, p), p.r, p.c) + CellScore(v, p.r, p.c)
  {
    var h := SetCell(g, p, v);
    var f, f' := ScoreFn(g), ScoreFn(h);
    forall r | 0 <= r < ROWS && r != p.r
      ensures RowSums(f, COLS)(r) == RowSums(f', COLS)(r)
    {
      SumCongruent(RowFn(f, r), RowFn(f', r), COLS);
    }
    SumPoint(RowFn(f, p.r), RowFn(f', p.r), COLS, p.c);
    SumPoint(RowSums(f, COLS), RowSums(f', COLS), ROWS, p.r);
  }

  /** Taking a Black piece off the board raises the score; taking a Red one
      off lowers it. */
  lemma RemovalScore(g: Grid, p: Pos)
    requires OnBoard(p) && At(g, p).Some?
    ensures At(g, p).value.color == Black ==> Evaluate(SetCell(g, p, None)) > Evaluate(g)
    ensures At(g, p).value.color == Red ==> Evaluate(SetCell(g, p, None)) < Evaluate(g)
  {
    SetCellScore(g, p, None);
    CellScoreSign(At(g, p), p.r, p.c);
  }

  // ---------------------------------------------------------------------
  // Colour mirror
  // ---------------------------------------------------------------------

  /** x is y with its colour swapped (ids and positions are not compared). */
  predicate MirrorCell(x: Cell, y: Cell) {
    (x.Some? <==> y.Some?) &&
    (x.Some? ==> x.value.kind == y.value.kind && x.value.color == Opponent(y.value.color))
  }

  /** h is g reflected across the river with every colour swapped. */
  predicate MirrorOf(h: Grid, g: Grid) {
    forall r, c | 0 <= r < ROWS && 0 <= c < COLS :: MirrorCell(h[r][c], g[ROWS - 1 - r][c])
  }

  lemma MirrorCellScore(x: Cell, y: Cell, r: int, c: int)
    requires IsValidPos(r, c) && MirrorCell(x, y)
    ensures CellScore(x, r, c) == -CellScore(y, ROWS - 1 - r, c)
  {
  }

  /** Mirroring the board and swapping colours negates the score. */
  lemma MirrorNegates(g: Grid, h: Grid)
    requires MirrorOf(h, g)
    ensures Evaluate(h) == -Evaluate(g)
  {
    var f, f' := ScoreFn(g), ScoreFn(h);
    var neg := (r: int) => -RowSum(f, r, COLS);
    forall r | 0 <= r < ROWS
      ensures RowSums(f', COLS)(r) == neg(ROWS - 1 - r)
    {
      forall c | 0 <= c < COLS
        ensures RowFn(f', r)(c) == -RowFn(f, ROWS - 1 - r)(c)
      {
        MirrorCellScore(h[r][c], g[ROWS - 1 - r][c], r, c);
      }
      SumNegate(RowFn(f, ROWS - 1 - r), RowFn(f', r), COLS);
    }
    SumReverse(neg, RowSums(f', COLS), ROWS);
    SumNegate(RowSums(f, COLS), neg, ROWS);
  }

  /** The initial position is balanced. */
  lemma InitialScoreZero()
    ensures Evaluate(InitialGrid()) == 0
  {
    var g, h := InitialGrid(), InitialGrid();
    forall r, c | 0 <= r < ROWS && 0 <= c < COLS
      ensures MirrorCell(h[r][c], g[ROWS - 1 - r][c])
    {
      InitialMirror(ROWS - 1 - r, c);
    }
    MirrorNegates(g, h);
  }

  // ---------------------------------------------------------------------
  // The FEN text determines the score
  // ---------------------------------------------------------------------

  lemma {:induction false} GlyphsAt(row: seq<Cell>, c: int)
    requires 0 <= c < |row|
    ensures |Glyphs(row)| == |row| && Glyphs(row)[c] == GlyphOf(row[c])
    decreases |row|
  {
    if c > 0 {
      GlyphsAt(row[1..], c - 1);
    } else {
      GlyphsLength(row);
    }
  }

  /** The score reads only the kind and colour of each cell. */
  lemma GlyphsDetermineScore(g: Grid, h: Grid)
    requires GridGlyphs(g) == GridGlyphs(h)
    ensures Evaluate(g) == Evaluate(h)
  {
    forall r, c | 0 <= r < ROWS && 0 <= c < COLS
      ensures ScoreFn(g)(r, c) == ScoreFn(h)(r, c)
    {
      assert GridGlyphs(g)[r] == Glyphs(g[r]);
      assert GridGlyphs(h)[r] == Glyphs(h[r]);
      GlyphsAt(g[r], c);
      GlyphsAt(h[r], c);
    }
    BoardCongruent(ScoreFn(g), ScoreFn(h), ROWS, COLS);
  }

  /** Two positions with the same FEN text have the same score. */
  lemma FenDeterminesScore(g: Grid, h: Grid, t: Color, u: Color)
    requires BoardToFen(g, t) == BoardToFen(h, u)
    ensures Evaluate(g) == Evaluate(h)
  {
    FenDetermines(g, h, t, u);
    GlyphsDetermineScore(g, h);
  }
}
